/** The services as they run: tables updated row by row, each method proved to do what Registry says. */
module Services {
  import opened Text
  import opened Lifecycle
  import opened CertificateNumber
  import opened ExportDates
  import opened Registry
  import opened Changes
  import opened QrActivity

  /** The repositories, the cache and the clock that all services share. */
  class Store {
    var certifications: seq<Certification>
    var ledger: seq<LedgerRow>
    var counters: map<Series, nat>
    var qrCodes: map<Signature, QrCode>
    var cache: map<Signature, CacheEntry>
    var scans: seq<ScanEvent>
    var inspections: seq<Inspection>
    var reports: seq<Report>
    var documents: seq<ExportDocument>
    var now: Time

    function View(): World
      reads this
    {
      World(certifications, ledger, counters, qrCodes, cache, scans, inspections, reports, documents, now)
    }

    /** What makes findOne({ certificationId, isActive: true }) deterministic; every call keeps it. */
    ghost predicate Valid()
      reads this
    {
      OneActive(qrCodes)
    }

    constructor (now: Time)
      ensures Valid() && View() == Blank(now)
    {
      certifications, ledger, counters, qrCodes, cache := [], [], map[], map[], map[];
      scans, inspections, reports, documents := [], [], [], [];
      this.now := now;
    }

    method Advance(elapsed: Time)
      requires Valid()
      modifies this
      ensures Valid() && View() == Step(old(View()), Tick(elapsed))
    {
      now := now + elapsed;
    }

    method DropFromCache(s: Signature)
      requires Valid()
      modifies this
      ensures Valid() && View() == Step(old(View()), CacheLoss(s))
    {
      cache := cache - {s};
    }
  }

  class QrCodeService {
    const store: Store

    constructor (store: Store)
      ensures this.store == store
    {
      this.store := store;
    }

    method GenerateQrCode(id: Id) returns (r: Reply)
      requires store.Valid()
      modifies store
      ensures store.Valid() && Effect(store.View(), r) == Registry.GenerateQrCode(old(store.View()), id)
    {
      GenerateKeepsOneActive(store.View(), id);
      if id >= |store.certifications| {
        return Failed(NotFound);
      }
      var issuedAt := store.now;
      var signature := Signature(id, issuedAt);
      var taken := signature in store.qrCodes;
      DeactivateCodes(id);
      if taken {
        return Failed(DuplicateSignature);
      }
      var certification := store.certifications[id];
      var expiresAt := if certification.grant.Some? then Some(certification.grant.value.validUntil) else None;
      store.qrCodes := store.qrCodes[signature := QrCode(true, 0, expiresAt)];
      r := Row(id);
    }

    /** UPDATE qr_code SET is_active = false WHERE certification_id = id AND is_active, row by row. */
    method DeactivateCodes(id: Id)
      modifies store`qrCodes
      ensures store.qrCodes == Deactivate(old(store.qrCodes), id)
    {
      var todo := store.qrCodes.Keys;
      ghost var before := store.qrCodes;
      while todo != {}
        invariant todo <= before.Keys
        invariant store.qrCodes.Keys == before.Keys
        invariant forall s | s in before && s !in todo :: store.qrCodes[s] == Deactivate(before, id)[s]
        invariant forall s | s in todo :: store.qrCodes[s] == before[s]
        decreases |todo|
      {
        var s :| s in todo;
        if s.certificationId == id && store.qrCodes[s].isActive {
          store.qrCodes := store.qrCodes[s := store.qrCodes[s].(isActive := false)];
        }
        todo := todo - {s};
      }
    }

    method FindActiveCode(id: Id) returns (r: Option<Signature>)
      requires store.Valid()
      ensures r == FindActive(store.qrCodes, id)
    {
      var todo := store.qrCodes.Keys;
      while todo != {}
        invariant todo <= store.qrCodes.Keys
        invariant forall s | ActiveFor(store.qrCodes, id, s) :: s in todo
        decreases |todo|
      {
        var s :| s in todo;
        if s.certificationId == id && store.qrCodes[s].isActive {
          ActiveIsUnique(store.qrCodes, id, s);
          return Some(s);
        }
        todo := todo - {s};
      }
      r := None;
    }

    method EvictQrCache(id: Id)
      requires store.Valid()
      modifies store`cache
      ensures store.View() == Registry.EvictQrCache(old(store.View()), id)
    {
      var code := FindActiveCode(id);
      if code.Some? {
        store.cache := store.cache - {code.value};
      }
    }

    method DeactivateByCertificationId(id: Id)
      requires store.Valid()
      modifies store`cache, store`qrCodes
      ensures store.Valid()
      ensures store.View() == Registry.DeactivateByCertificationId(old(store.View()), id)
    {
      DeactivateClears(store.qrCodes, id);
      EvictQrCache(id);
      DeactivateCodes(id);
    }

    method FindSuccessor(id: Id) returns (r: Option<Id>)
      ensures r == Successor(store.certifications, id, 0)
    {
      var j := 0;
      while j < |store.certifications|
        invariant j <= |store.certifications|
        invariant Successor(store.certifications, id, 0) == Successor(store.certifications, id, j)
      {
        if store.certifications[j].renewedFromId == Some(id) {
          return Some(j);
        }
        j := j + 1;
      }
      r := None;
    }

    method Remember(s: Signature, answer: Verification)
      requires s in store.qrCodes
      modifies store`qrCodes, store`cache
      ensures store.qrCodes == old(store.qrCodes)[s := Scanned(old(store.qrCodes)[s])]
      ensures store.cache == old(store.cache)[s := CacheEntry(answer, store.now)]
    {
      store.qrCodes := store.qrCodes[s := Scanned(store.qrCodes[s])];
      store.cache := store.cache[s := CacheEntry(answer, store.now)];
    }

    method VerifyQrCode(s: Signature, ip: Option<string>, logged: bool) returns (r: Verification)
      requires store.Valid()
      modifies store
      ensures store.Valid()
      ensures Effect(store.View(), Verified(r)) == Registry.VerifyQrCode(old(store.View()), s, ip, logged)
    {
      ScanKeepsOneActive(store.View(), Verifying(s, ip, logged));
      if s in store.cache && store.now <= store.cache[s].storedAt + TTL {
        return store.cache[s].answer;
      }
      if s !in store.qrCodes || !store.qrCodes[s].isActive {
        return Verification(false, None, None, NotFoundOrInactive, None);
      }
      var code := store.qrCodes[s];
      if code.expiresAt.Some? && store.now > code.expiresAt.value {
        return Verification(false, None, Some(code), Expired, None);
      }
      if s.certificationId >= |store.certifications| {
        return Verification(false, None, Some(code), CertificationMissing, None);
      }
      var cert := store.certifications[s.certificationId];
      if cert.currentStatus == Renewed {
        var successor := FindSuccessor(s.certificationId);
        var number := if successor.Some? then store.certifications[successor.value].certificationNumber else None;
        r := Verification(false, Some(cert), Some(Scanned(code)), Superseded(number), number);
        Remember(s, r);
        return;
      }
      if cert.currentStatus != Granted {
        return Verification(false, Some(cert), Some(code), NotActive(cert.currentStatus), None);
      }
      r := Verification(true, Some(cert), Some(Scanned(code)), ValidAndActive, None);
      Remember(s, r);
      if logged {
        store.scans := store.scans + [ScanEvent(s, ip, store.now)];
      }
    }
  }

  class CertificationService {
    const store: Store
    const qrCodeService: QrCodeService

    constructor (store: Store, qrCodeService: QrCodeService)
      requires qrCodeService.store == store
      ensures this.store == store && this.qrCodeService == qrCodeService
    {
      this.store := store;
      this.qrCodeService := qrCodeService;
    }

    predicate Wired()
      reads this
    {
      qrCodeService.store == store
    }

    method IsEventProcessed(correlationId: string) returns (processed: bool)
      ensures processed == Registry.IsEventProcessed(store.View(), correlationId)
      ensures processed <==> exists i | 0 <= i < |store.ledger| :: store.ledger[i].actor.correlationId == correlationId
    {
      var i := 0;
      while i < |store.ledger|
        invariant i <= |store.ledger|
        invariant forall k | 0 <= k < i :: store.ledger[k].actor.correlationId != correlationId
      {
        if store.ledger[i].actor.correlationId == correlationId {
          return true;
        }
        i := i + 1;
      }
      processed := false;
    }

    method RequestCertification(dto: RequestDto, userId: string) returns (r: Reply)
      requires store.Valid()
      modifies store
      ensures store.Valid() && Effect(store.View(), r) == Registry.RequestCertification(old(store.View()), dto, userId)
    {
      if |dto.cooperativeName| > 200 || |dto.productTypeCode| > 50 || |dto.regionCode| > 50 {
        return Failed(ColumnOverflow);
      }
      var terms := Terms(userId, dto.cooperativeName, dto.batchId, dto.productTypeCode, dto.certificationType,
                         dto.regionCode);
      r := Row(|store.certifications|);
      store.certifications := store.certifications + [NewDraft(terms, userId, store.now, None)];
    }

    /** findById and assertStatus. */
    method AssertStatus(id: Id, expected: Status) returns (e: Option<Error>)
      ensures e == Guard(store.View(), id, expected)
    {
      if id >= |store.certifications| {
        return Some(NotFound);
      }
      var current := store.certifications[id].currentStatus;
      if current != expected {
        return Some(InvalidTransition(current, expected));
      }
      e := None;
    }

    method ApplyTransition(id: Id, cert: Certification, event: EventType, actor: Actor, payload: Payload)
      requires id < |store.certifications|
      modifies store`ledger, store`certifications
      ensures store.View() == Transition(old(store.View()), id, cert, event, actor, payload)
    {
      var toStatus := EdgeOf(event).to;
      var row := LedgerRow(id, Edge(event, cert.currentStatus, toStatus), actor, payload, store.now);
      store.ledger := store.ledger + [row];
      store.certifications := store.certifications[id := cert.(currentStatus := toStatus)];
    }

    /** The seven methods that only check, log and move. */
    method Move(id: Id, stage: Stage, actor: Actor) returns (r: Reply)
      requires store.Valid()
      modifies store
      ensures store.Valid() && Effect(store.View(), r) == Advance(old(store.View()), id, stage, actor)
    {
      var refused := AssertStatus(id, EdgeOf(StageEvent(stage)).from);
      if refused.Some? {
        return Failed(refused.value);
      }
      ApplyTransition(id, store.certifications[id], StageEvent(stage), actor, StagePayload(stage, store.now));
      r := Row(id);
    }

    /** Upserts the counter row, increments it and prints the number. */
    method GenerateCertificationNumber(terms: Terms, year: nat) returns (number: string)
      modifies store`counters
      ensures store.View() == Increment(old(store.View()), SeriesOf(terms, year))
      ensures number == NumberText(terms, year, LastSeq(store.View(), SeriesOf(terms, year)))
    {
      var key := SeriesOf(terms, year);
      if key !in store.counters {
        store.counters := store.counters[key := 0];
      }
      store.counters := store.counters[key := store.counters[key] + 1];
      number := NumberText(terms, year, store.counters[key]);
    }

    method GrantCertification(id: Id, validFrom: Time, validUntil: Time, year: nat, actor: Actor) returns (r: Reply)
      requires store.Valid() && Wired()
      modifies store
      ensures store.Valid()
      ensures Effect(store.View(), r) ==
              Registry.GrantCertification(old(store.View()), id, validFrom, validUntil, year, actor)
    {
      var refused := AssertStatus(id, UnderReview);
      if refused.Some? {
        return Failed(refused.value);
      }
      var cert := store.certifications[id];
      var number := GenerateCertificationNumber(cert.terms, year);
      cert := Awarded(cert, number, actor.id, store.now, validFrom, validUntil);
      ApplyTransition(id, cert, DecisionGranted, actor, Award(number, validFrom, validUntil));
      assert store.View() == GrantTransition(old(store.View()), id, validFrom, validUntil, year, actor);
      r := qrCodeService.GenerateQrCode(id);
      if !r.Failed? {
        r := Row(id);
      }
    }

    method DenyCertification(id: Id, reason: string, actor: Actor) returns (r: Reply)
      requires store.Valid()
      modifies store
      ensures store.Valid()
      ensures Effect(store.View(), r) == Registry.DenyCertification(old(store.View()), id, reason, actor)
    {
      var refused := AssertStatus(id, UnderReview);
      if refused.Some? {
        return Failed(refused.value);
      }
      var cert := store.certifications[id].(denial := Some(Refusal(actor.id, store.now, reason)));
      ApplyTransition(id, cert, DecisionDenied, actor, Reason(reason));
      r := Row(id);
    }

    method RevokeCertification(id: Id, reason: string, actor: Actor) returns (r: Reply)
      requires store.Valid() && Wired()
      modifies store
      ensures store.Valid()
      ensures Effect(store.View(), r) == Registry.RevokeCertification(old(store.View()), id, reason, actor)
    {
      var refused := AssertStatus(id, Granted);
      if refused.Some? {
        return Failed(refused.value);
      }
      var cert := store.certifications[id].(revocation := Some(Refusal(actor.id, store.now, reason)));
      ApplyTransition(id, cert, CertificateRevoked, actor, Reason(reason));
      qrCodeService.DeactivateByCertificationId(id);
      r := Row(id);
    }

    method RenewCertification(id: Id, actor: Actor) returns (r: Reply)
      requires store.Valid() && Wired()
      modifies store
      ensures store.Valid() && Effect(store.View(), r) == Registry.RenewCertification(old(store.View()), id, actor)
    {
      var refused := AssertStatus(id, Granted);
      if refused.Some? {
        return Failed(refused.value);
      }
      var terms := store.certifications[id].terms;
      ApplyTransition(id, store.certifications[id], CertificateRenewed, actor, NoPayload);
      qrCodeService.EvictQrCache(id);
      r := Row(|store.certifications|);
      store.certifications := store.certifications + [NewDraft(terms, actor.id, store.now, Some(id))];
    }

    /** Some certification of the batch in LAB_TESTING; pick is the row the database happens to return. */
    method FindAwaitingLab(batchId: string, pick: Id) returns (r: Option<Id>)
      ensures r == FindAwaiting(store.certifications, batchId, pick)
    {
      if AwaitsLab(store.certifications, batchId, pick) {
        return Some(pick);
      }
      var j := 0;
      while j < |store.certifications|
        invariant j <= |store.certifications|
        invariant FirstAwaiting(store.certifications, batchId, 0) == FirstAwaiting(store.certifications, batchId, j)
      {
        if AwaitsLab(store.certifications, batchId, j) {
          return Some(j);
        }
        j := j + 1;
      }
      r := None;
    }

    method ReceiveLabResults(e: LabEvent, pick: Id) returns (r: Reply)
      requires store.Valid()
      modifies store
      ensures store.Valid() && Effect(store.View(), r) == Registry.ReceiveLabResults(old(store.View()), e, pick)
    {
      var found := FindAwaitingLab(e.batchId, pick);
      if found.None? {
        return Skipped;
      }
      ApplyTransition(found.value, store.certifications[found.value], EventType.LabResultsReceived,
                      Actor("system", "service-account", e.eventId), LabReport(e.labTestId, e.passed, store.now));
      r := Row(found.value);
    }
  }

  class CertificationListener {
    const certificationService: CertificationService

    constructor (certificationService: CertificationService)
      ensures this.certificationService == certificationService
    {
      this.certificationService := certificationService;
    }

    method HandleLabTestCompleted(e: LabEvent, pick: Id) returns (r: Reply)
      requires certificationService.store.Valid()
      modifies certificationService.store
      ensures certificationService.store.Valid()
      ensures Effect(certificationService.store.View(), r) ==
              Registry.HandleLabTestCompleted(old(certificationService.store.View()), e, pick)
    {
      var processed := certificationService.IsEventProcessed(e.eventId);
      if processed {
        return Skipped;
      }
      r := certificationService.ReceiveLabResults(e, pick);
    }
  }

  class InspectionService {
    const store: Store

    constructor (store: Store)
      ensures this.store == store
    {
      this.store := store;
    }

    /** UPDATE certification SET current_status WHERE id: no guard, no ledger row, no effect on a missing id. */
    method WriteStatus(id: Id, status: Status)
      modifies store`certifications
      ensures store.View() == OverwriteStatus(old(store.View()), id, status)
    {
      if id < |store.certifications| {
        store.certifications := store.certifications[id := store.certifications[id].(currentStatus := status)];
      }
    }

    method ScheduleInspection(dto: ScheduleDto) returns (r: Reply)
      requires store.Valid()
      modifies store
      ensures store.Valid() && Effect(store.View(), r) == Registry.ScheduleInspection(old(store.View()), dto)
    {
      if dto.certificationId >= |store.certifications| {
        return Failed(NotFound);
      }
      var cooperativeId := store.certifications[dto.certificationId].terms.cooperativeId;
      r := Row(|store.inspections|);
      store.inspections := store.inspections + [
        Inspection(dto.certificationId, cooperativeId, dto.inspectorId, dto.inspectorName, dto.scheduledDate,
                   dto.farmIds, Scheduled, None, None)];
      WriteStatus(dto.certificationId, Status.InspectionScheduled);
    }

    method CompleteInspection(id: Id, dto: CompleteDto, inspectorId: string) returns (r: Reply)
      requires store.Valid()
      modifies store
      ensures store.Valid()
      ensures Effect(store.View(), r) == Registry.CompleteInspection(old(store.View()), id, dto, inspectorId)
    {
      if id >= |store.inspections| {
        return Failed(NotFound);
      }
      var inspection := store.inspections[id];
      if inspection.status != Scheduled && inspection.status != InProgress {
        return Failed(InvalidInspectionStatus(inspection.status));
      }
      var completedAt := store.now;
      store.inspections := store.inspections[id :=
        inspection.(status := Completed, completedAt := Some(completedAt), passed := Some(dto.passed))];
      r := Row(|store.reports|);
      store.reports := store.reports + [
        Report(id, inspection.certificationId, inspection.cooperativeId, inspectorId, dto.passed, dto.summary,
               OrEmpty(dto.farmFindings), OrEmpty(dto.nonConformities), completedAt)];
      WriteStatus(inspection.certificationId, InspectionComplete);
    }

    method AssignInspector(id: Id, inspectorId: string, inspectorName: string) returns (r: Reply)
      requires store.Valid()
      modifies store
      ensures store.Valid()
      ensures Effect(store.View(), r) == Registry.AssignInspector(old(store.View()), id, inspectorId, inspectorName)
    {
      if id >= |store.inspections| {
        return Failed(NotFound);
      }
      var inspection := store.inspections[id];
      if inspection.status == Completed || inspection.status == Cancelled {
        return Failed(AlreadyClosed);
      }
      store.inspections := store.inspections[id :=
        inspection.(inspectorId := inspectorId, inspectorName := Some(inspectorName))];
      r := Row(id);
    }

    method FileReport(id: Id, passed: bool, summary: string, nonConformity: Option<string>, inspectorId: string)
      returns (r: Reply)
      requires store.Valid()
      modifies store
      ensures store.Valid()
      ensures Effect(store.View(), r) ==
              Registry.FileReport(old(store.View()), id, passed, summary, nonConformity, inspectorId)
    {
      var nonConformities := [];
      if nonConformity.Some? && nonConformity.value != "" {
        nonConformities := [NonConformity("NC-001", nonConformity.value, Minor, None)];
      }
      r := CompleteInspection(id, CompleteDto(passed, summary, Some([]), Some(nonConformities)), inspectorId);
      if !r.Failed? {
        r := Row(id);
      }
    }
  }

  class ExportDocumentService {
    const store: Store

    constructor (store: Store)
      ensures this.store == store
    {
      this.store := store;
    }

    method RequestExportDocument(id: Id, request: ExportRequest, userId: string) returns (r: Reply)
      requires store.Valid()
      modifies store
      ensures store.Valid()
      ensures Effect(store.View(), r) == Registry.RequestExportDocument(old(store.View()), id, request, userId)
    {
      if id >= |store.certifications| || store.certifications[id].currentStatus != Granted {
        return Failed(NotGranted);
      }
      var cooperativeId := store.certifications[id].terms.cooperativeId;
      r := Row(|store.documents|);
      store.documents := store.documents + [
        ExportDocument(id, cooperativeId, request, userId, InSubmission, None, None, store.now)];
    }

    method UpdateOnssaReference(id: Id, reference: string) returns (r: Reply)
      requires store.Valid()
      modifies store
      ensures store.Valid()
      ensures Effect(store.View(), r) == Registry.UpdateOnssaReference(old(store.View()), id, reference)
    {
      if id >= |store.documents| {
        return Failed(NotFound);
      }
      store.documents := store.documents[id :=
        store.documents[id].(onssaReference := Some(reference), status := Approved)];
      r := Row(id);
    }

    method ValidateDocument(id: Id) returns (r: Reply)
      requires store.Valid()
      modifies store
      ensures store.Valid() && Effect(store.View(), r) == Registry.ValidateDocument(old(store.View()), id)
    {
      if id >= |store.documents| {
        return Failed(NotFound);
      }
      var validUntilDate := DateOf(store.now);
      validUntilDate := AddSixMonths(validUntilDate);
      store.documents := store.documents[id :=
        store.documents[id].(status := Approved, validUntil := Some(validUntilDate))];
      r := Row(id);
    }
  }

  /** One running system: every call of a run is carried out by the services. */
  class System {
    const store: Store
    const qrCodes: QrCodeService
    const certifications: CertificationService
    const listener: CertificationListener
    const inspections: InspectionService
    const documents: ExportDocumentService

    ghost predicate Valid()
      reads this, store
    {
      && store.Valid()
      && qrCodes.store == store && inspections.store == store && documents.store == store
      && certifications.store == store && certifications.qrCodeService == qrCodes
      && listener.certificationService == certifications
    }

    constructor (now: Time)
      ensures Valid() && fresh(store) && store.View() == Blank(now)
    {
      var s := new Store(now);
      var q := new QrCodeService(s);
      var c := new CertificationService(s, q);
      var l := new CertificationListener(c);
      var i := new InspectionService(s);
      var d := new ExportDocumentService(s);
      store, qrCodes, certifications, listener, inspections, documents := s, q, c, l, i, d;
    }

    /** Whatever is proved of runs of Step holds of the running services. */
    method Handle(c: Call)
      requires Valid()
      modifies store
      ensures Valid() && store.View() == Step(old(store.View()), c)
    {
      if IsInspection(c) {
        HandleInspection(c);
      } else if IsDocumentCall(c) {
        HandleDocumentCall(c);
      } else if IsSideCall(c) {
        HandleSideCall(c);
      } else {
        HandleMainCall(c);
      }
    }

    method HandleMainCall(c: Call)
      requires Valid() && !IsSideCall(c)
      modifies store
      ensures Valid() && store.View() == Step(old(store.View()), c)
    {
      var r: Reply;
      match c
      case Request(dto, user) => r := certifications.RequestCertification(dto, user);
      case Advanced(id, stage, actor) => r := certifications.Move(id, stage, actor);
      case LabTestCompleted(event, pick) => r := listener.HandleLabTestCompleted(event, pick);
      case Granting(id, from, until, year, actor) =>
        r := certifications.GrantCertification(id, from, until, year, actor);
      case Denying(id, reason, actor) => r := certifications.DenyCertification(id, reason, actor);
      case Revoking(id, reason, actor) => r := certifications.RevokeCertification(id, reason, actor);
      case Renewing(id, actor) => r := certifications.RenewCertification(id, actor);
      case Generating(id) => r := qrCodes.GenerateQrCode(id);
      case Verifying(s, ip, logged) =>
        var answer := qrCodes.VerifyQrCode(s, ip, logged);
      case CacheLoss(s) => store.DropFromCache(s);
    }

    method HandleInspection(c: Call)
      requires Valid() && IsInspection(c)
      modifies store
      ensures Valid() && store.View() == Step(old(store.View()), c)
    {
      var r: Reply;
      match c
      case Scheduling(dto) => r := inspections.ScheduleInspection(dto);
      case Completing(id, dto, inspector) => r := inspections.CompleteInspection(id, dto, inspector);
      case Filing(id, passed, summary, finding, inspector) =>
        r := inspections.FileReport(id, passed, summary, finding, inspector);
    }

    method HandleSideCall(c: Call)
      requires Valid() && (c.Assigning? || c.Tick?)
      modifies store
      ensures Valid() && store.View() == Step(old(store.View()), c)
    {
      var r: Reply;
      match c
      case Assigning(id, inspector, name) => r := inspections.AssignInspector(id, inspector, name);
      case Tick(elapsed) => store.Advance(elapsed);
    }

    method HandleDocumentCall(c: Call)
      requires Valid() && IsDocumentCall(c)
      modifies store
      ensures Valid() && store.View() == Step(old(store.View()), c)
    {
      var r: Reply;
      match c
      case Exporting(id, request, user) => r := documents.RequestExportDocument(id, request, user);
      case Referencing(id, reference) => r := documents.UpdateOnssaReference(id, reference);
      case Approving(id) => r := documents.ValidateDocument(id);
    }

    /** Any sequence of calls on a fresh system is a run in the sense of Trace. */
    method HandleAll(calls: seq<Call>) returns (ghost worlds: seq<World>)
      requires Valid() && store.View() == Blank(store.now)
      modifies store
      ensures Valid() && Trace(worlds, calls) && store.View() == worlds[|calls|]
    {
      worlds := [store.View()];
      var i := 0;
      while i < |calls|
        invariant i <= |calls| && Valid()
        invariant Trace(worlds, calls[..i]) && store.View() == worlds[i]
      {
        Handle(calls[i]);
        TraceGrows(worlds, calls[..i], calls[i], store.View());
        worlds := worlds + [store.View()];
        assert calls[..i + 1] == calls[..i] + [calls[i]];
        i := i + 1;
      }
      assert calls[..i] == calls;
    }
  }
}

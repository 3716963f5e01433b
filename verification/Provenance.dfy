/** Every stored row says what the call that wrote it said, over whole runs. */
module Provenance {
  import opened Text
  import opened Lifecycle
  import opened ExportDates
  import opened Registry
  import opened Changes
  import opened Staleness
  import Inspections
  import ExportDocuments

  // ----- Inspections -----

  predicate IsOpen(x: Inspection) {
    x.status == Scheduled || x.status == InProgress
  }

  predicate IsClosed(x: Inspection) {
    x.status == Completed || x.status == Cancelled
  }

  /** The row a schedule makes. */
  predicate FromSchedule(w: World, dto: ScheduleDto, x: Inspection) {
    && dto.certificationId < |w.certifications|
    && x.certificationId == dto.certificationId
    && x.cooperativeId == w.certifications[dto.certificationId].terms.cooperativeId
    && x.scheduledDate == dto.scheduledDate && x.farmIds == dto.farmIds
  }

  /** A call that closes inspection id, with its verdict. */
  predicate Closes(w: World, c: Call, id: Id) {
    (c.Completing? || c.Filing?) && c.id == id && id < |w.inspections| && IsOpen(w.inspections[id])
  }

  function VerdictOf(c: Call): bool
    requires c.Completing? || c.Filing?
  {
    if c.Completing? then c.report.passed else c.passed
  }

  predicate Assigns(w: World, c: Call, id: Id) {
    c.Assigning? && c.id == id && id < |w.inspections| && !IsClosed(w.inspections[id])
  }

  /** What one call does to inspection id: schedules it, closes it, changes its inspector, or leaves it alone. */
  predicate InspectionBecomes(w: World, c: Call, id: Id, x: Inspection) {
    if id >= |w.inspections| then
      && id == |w.inspections| && c.Scheduling? && FromSchedule(w, c.schedule, x)
      && x.inspectorId == c.schedule.inspectorId && x.inspectorName == c.schedule.inspectorName
      && x.status == Scheduled && x.completedAt == None && x.passed == None
    else if Closes(w, c, id) then
      x == w.inspections[id].(status := Completed, completedAt := Some(w.now), passed := Some(VerdictOf(c)))
    else if Assigns(w, c, id) then
      x == w.inspections[id].(inspectorId := c.inspectorId, inspectorName := Some(c.inspectorName))
    else x == w.inspections[id]
  }

  lemma CompletionAfter(w: World, closed: Id, dto: CompleteDto, inspector: string, id: Id)
    requires id < |CompleteInspection(w, closed, dto, inspector).world.inspections|
    ensures var x := CompleteInspection(w, closed, dto, inspector).world.inspections[id];
            && id < |w.inspections|
            && x == if closed == id && IsOpen(w.inspections[id])
                    then w.inspections[id].(status := Completed, completedAt := Some(w.now), passed := Some(dto.passed))
                    else w.inspections[id]
  {
  }

  lemma ScheduleAfter(w: World, c: Call, id: Id)
    requires c.Scheduling? && id < |Step(w, c).inspections|
    ensures InspectionBecomes(w, c, id, Step(w, c).inspections[id])
  {
  }

  lemma AssignmentAfter(w: World, c: Call, id: Id)
    requires c.Assigning? && id < |Step(w, c).inspections|
    ensures InspectionBecomes(w, c, id, Step(w, c).inspections[id])
  {
  }

  lemma ClosingAfter(w: World, c: Call, id: Id)
    requires (c.Completing? || c.Filing?) && id < |Step(w, c).inspections|
    ensures InspectionBecomes(w, c, id, Step(w, c).inspections[id])
  {
    match c
    case Completing(closed, dto, inspector) => CompletionAfter(w, closed, dto, inspector, id);
    case Filing(closed, passed, summary, finding, inspector) =>
      CompletionAfter(w, closed, FiledDto(passed, summary, finding), inspector, id);
  }

  lemma InspectionAfter(w: World, c: Call, id: Id)
    requires id < |Step(w, c).inspections|
    ensures InspectionBecomes(w, c, id, Step(w, c).inspections[id])
  {
    match c
    case Scheduling(_) => ScheduleAfter(w, c, id);
    case Completing(_, _, _) => ClosingAfter(w, c, id);
    case Filing(_, _, _, _, _) => ClosingAfter(w, c, id);
    case Assigning(_, _, _) => AssignmentAfter(w, c, id);
    case _ => Inspections.OtherCallsKeepReports(w, c);
  }

  /** In every run an inspection is about what its schedule was about. */
  lemma {:induction false} InspectionTold(worlds: seq<World>, calls: seq<Call>, n: nat, id: Id) returns (i: nat)
    requires Trace(worlds, calls) && n <= |calls| && id < |worlds[n].inspections|
    ensures i < n && calls[i].Scheduling? && |worlds[i].inspections| == id
    ensures FromSchedule(worlds[i], calls[i].schedule, worlds[n].inspections[id])
  {
    assert n > 0;
    assert Linked(worlds, calls, n - 1);
    InspectionAfter(worlds[n - 1], calls[n - 1], id);
    if id < |worlds[n - 1].inspections| {
      i := InspectionTold(worlds, calls, n - 1, id);
    } else {
      i := n - 1;
    }
  }

  /** The inspector is the one last assigned while the inspection was open, or the one of its schedule. */
  lemma {:induction false} InspectorTold(worlds: seq<World>, calls: seq<Call>, n: nat, id: Id) returns (i: nat)
    requires Trace(worlds, calls) && n <= |calls| && id < |worlds[n].inspections|
    ensures i < n && forall k | i < k < n :: !Assigns(worlds[k], calls[k], id)
    ensures var x := worlds[n].inspections[id];
            || (Assigns(worlds[i], calls[i], id) &&
                x.inspectorId == calls[i].inspectorId && x.inspectorName == Some(calls[i].inspectorName))
            || (calls[i].Scheduling? && |worlds[i].inspections| == id &&
                x.inspectorId == calls[i].schedule.inspectorId && x.inspectorName == calls[i].schedule.inspectorName)
  {
    assert n > 0;
    assert Linked(worlds, calls, n - 1);
    InspectionAfter(worlds[n - 1], calls[n - 1], id);
    if id < |worlds[n - 1].inspections| && !Assigns(worlds[n - 1], calls[n - 1], id) {
      i := InspectorTold(worlds, calls, n - 1, id);
    } else {
      i := n - 1;
    }
  }

  /** A completed inspection carries verdict and time of the call that closed it; an open one carries neither. */
  lemma {:induction false} VerdictTold(worlds: seq<World>, calls: seq<Call>, n: nat, id: Id) returns (i: nat)
    requires Trace(worlds, calls) && n <= |calls| && id < |worlds[n].inspections|
    ensures var x := worlds[n].inspections[id];
            if x.status == Completed then
              && i < n && Closes(worlds[i], calls[i], id)
              && x.passed == Some(VerdictOf(calls[i])) && x.completedAt == Some(worlds[i].now)
            else x.status == Scheduled && x.passed == None && x.completedAt == None
  {
    assert n > 0;
    assert Linked(worlds, calls, n - 1);
    InspectionAfter(worlds[n - 1], calls[n - 1], id);
    if id < |worlds[n - 1].inspections| && !Closes(worlds[n - 1], calls[n - 1], id) {
      i := VerdictTold(worlds, calls, n - 1, id);
    } else {
      i := n - 1;
    }
  }

  // ----- Reports -----

  /** The report a closing call files. */
  predicate FromReport(w: World, c: Call, r: Report) {
    && (c.Completing? || c.Filing?) && Closes(w, c, r.inspectionId)
    && r.certificationId == w.inspections[r.inspectionId].certificationId
    && r.cooperativeId == w.inspections[r.inspectionId].cooperativeId
    && r.inspectorId == c.inspectorId && r.completedAt == w.now && r.passed == VerdictOf(c)
    && (if c.Completing? then
          && r.summary == c.report.summary
          && r.farmFindings == (if c.report.farmFindings.Some? then c.report.farmFindings.value else [])
          && r.nonConformities == (if c.report.nonConformities.Some? then c.report.nonConformities.value else [])
        else
          && r.summary == c.summary && r.farmFindings == []
          && (if c.nonConformity.Some? && |c.nonConformity.value| > 0
              then r.nonConformities == [NonConformity("NC-001", c.nonConformity.value, Minor, None)]
              else r.nonConformities == []))
  }

  /** At most one report is added, and then it is the call's; one is added whenever an inspection is closed. */
  predicate ReportsBecome(w: World, c: Call, reports: seq<Report>) {
    && (reports == w.reports ||
        (|reports| == |w.reports| + 1 && reports[..|w.reports|] == w.reports && FromReport(w, c, reports[|w.reports|])))
    && ((c.Completing? || c.Filing?) && Closes(w, c, c.id) ==> |reports| == |w.reports| + 1)
  }

  lemma CompletionReports(w: World, closed: Id, dto: CompleteDto, inspector: string)
    ensures var reports := CompleteInspection(w, closed, dto, inspector).world.reports;
            if closed < |w.inspections| && IsOpen(w.inspections[closed]) then
              reports == w.reports + [
                Report(closed, w.inspections[closed].certificationId, w.inspections[closed].cooperativeId, inspector,
                       dto.passed, dto.summary, OrEmpty(dto.farmFindings), OrEmpty(dto.nonConformities), w.now)]
            else reports == w.reports
  {
  }

  lemma ClosingReports(w: World, c: Call)
    requires c.Completing? || c.Filing?
    ensures ReportsBecome(w, c, Step(w, c).reports)
  {
    match c
    case Completing(closed, dto, inspector) => CompletionReports(w, closed, dto, inspector);
    case Filing(closed, passed, summary, finding, inspector) =>
      CompletionReports(w, closed, FiledDto(passed, summary, finding), inspector);
  }

  lemma SchedulingKeepsReports(w: World, c: Call)
    requires c.Scheduling? || c.Assigning?
    ensures Step(w, c).reports == w.reports
  {
  }

  lemma ReportsAfter(w: World, c: Call)
    ensures ReportsBecome(w, c, Step(w, c).reports)
  {
    match c
    case Completing(_, _, _) => ClosingReports(w, c);
    case Filing(_, _, _, _, _) => ClosingReports(w, c);
    case Scheduling(_) => SchedulingKeepsReports(w, c);
    case Assigning(_, _, _) => SchedulingKeepsReports(w, c);
    case _ => Inspections.OtherCallsKeepReports(w, c);
  }

  /** In every run a report says what the call that filed it said. */
  lemma {:induction false} ReportTold(worlds: seq<World>, calls: seq<Call>, n: nat, k: nat) returns (i: nat)
    requires Trace(worlds, calls) && n <= |calls| && k < |worlds[n].reports|
    ensures i < n && |worlds[i].reports| == k && FromReport(worlds[i], calls[i], worlds[n].reports[k])
  {
    assert n > 0;
    assert Linked(worlds, calls, n - 1);
    ReportsAfter(worlds[n - 1], calls[n - 1]);
    if k < |worlds[n - 1].reports| {
      i := ReportTold(worlds, calls, n - 1, k);
      assert worlds[n].reports[k] == worlds[n].reports[..|worlds[n - 1].reports|][k];
    } else {
      i := n - 1;
    }
  }

  // ----- Export documents -----

  predicate FromRequest(w: World, c: Call, d: ExportDocument) {
    && c.Exporting? && StandsAt(w, c.id, Granted)
    && d.certificationId == c.id && d.cooperativeId == w.certifications[c.id].terms.cooperativeId
    && d.request == c.request && d.requestedBy == c.userId && d.createdAt == w.now
  }

  predicate Refers(w: World, c: Call, id: Id) {
    c.Referencing? && c.id == id && id < |w.documents|
  }

  predicate Approves(w: World, c: Call, id: Id) {
    c.Approving? && c.id == id && id < |w.documents|
  }

  /** What one call does to document id: makes it, stores its reference, approves it, or leaves it alone. */
  predicate DocumentBecomes(w: World, c: Call, id: Id, d: ExportDocument) {
    if id >= |w.documents| then
      && id == |w.documents| && FromRequest(w, c, d)
      && d.status == InSubmission && d.onssaReference == None && d.validUntil == None
    else if Refers(w, c, id) then d == w.documents[id].(onssaReference := Some(c.reference), status := Approved)
    else if Approves(w, c, id) then
      && d == w.documents[id].(status := Approved, validUntil := d.validUntil)
      && d.validUntil.Some? && SixMonthsAfter(DateOf(w.now), d.validUntil.value)
    else d == w.documents[id]
  }

  lemma ApprovedAfter(w: World, c: Call, id: Id)
    requires c.Approving? && id < |Step(w, c).documents|
    ensures DocumentBecomes(w, c, id, Step(w, c).documents[id])
  {
    if c.id < |w.documents| {
      ApprovalStores(w, c.id);
      SixMonthsLater(DateOf(w.now));
    }
  }

  lemma ApprovalStores(w: World, id: Id)
    requires id < |w.documents|
    ensures ValidateDocument(w, id).world.documents ==
            w.documents[id := w.documents[id].(status := Approved, validUntil := Some(AddSixMonths(DateOf(w.now))))]
  {
  }

  lemma RequestedOrReferencedAfter(w: World, c: Call, id: Id)
    requires (c.Exporting? || c.Referencing?) && id < |Step(w, c).documents|
    ensures DocumentBecomes(w, c, id, Step(w, c).documents[id])
  {
  }

  lemma DocumentAfter(w: World, c: Call, id: Id)
    requires id < |Step(w, c).documents|
    ensures DocumentBecomes(w, c, id, Step(w, c).documents[id])
  {
    match c
    case Exporting(_, _, _) => RequestedOrReferencedAfter(w, c, id);
    case Referencing(_, _) => RequestedOrReferencedAfter(w, c, id);
    case Approving(_) => ApprovedAfter(w, c, id);
    case _ => ExportDocuments.OtherCallsKeepDocuments(w, c);
  }

  /** Only references change references, and only approvals change validities. */
  predicate DocumentKeeps(w: World, c: Call, id: Id, d: ExportDocument) {
    && (id >= |w.documents| ==>
          !Refers(w, c, id) && !Approves(w, c, id) && d.onssaReference == None && d.validUntil == None)
    && (id < |w.documents| && Refers(w, c, id) ==> d.onssaReference == Some(c.reference))
    && (id < |w.documents| && !Refers(w, c, id) ==> d.onssaReference == w.documents[id].onssaReference)
    && (id < |w.documents| && Approves(w, c, id) ==> d.validUntil.Some?)
    && (id < |w.documents| && !Approves(w, c, id) ==> d.validUntil == w.documents[id].validUntil)
  }

  lemma DocumentKept(w: World, c: Call, id: Id)
    requires id < |Step(w, c).documents|
    ensures DocumentKeeps(w, c, id, Step(w, c).documents[id])
  {
    DocumentAfter(w, c, id);
  }

  /** In every run a document carries all that was requested. */
  lemma {:induction false} DocumentTold(worlds: seq<World>, calls: seq<Call>, n: nat, id: Id) returns (i: nat)
    requires Trace(worlds, calls) && n <= |calls| && id < |worlds[n].documents|
    ensures i < n && |worlds[i].documents| == id && FromRequest(worlds[i], calls[i], worlds[n].documents[id])
  {
    assert n > 0;
    assert Linked(worlds, calls, n - 1);
    DocumentAfter(worlds[n - 1], calls[n - 1], id);
    if id < |worlds[n - 1].documents| {
      i := DocumentTold(worlds, calls, n - 1, id);
    } else {
      i := n - 1;
    }
  }

  /** Nothing refers to or approves a document before it exists. */
  lemma UntouchedBefore(worlds: seq<World>, calls: seq<Call>, n: nat, id: Id)
    requires Trace(worlds, calls) && 0 < n <= |calls| && id >= |worlds[n - 1].documents|
    ensures forall k | 0 <= k < n :: !Refers(worlds[k], calls[k], id) && !Approves(worlds[k], calls[k], id)
  {
    forall k | 0 <= k < n
      ensures !Refers(worlds[k], calls[k], id) && !Approves(worlds[k], calls[k], id)
    {
      DocumentsGrow(worlds, calls, k, n - 1);
    }
  }

  /** Its reference is the one last given, and absent if none was. */
  lemma {:induction false} ReferenceTold(worlds: seq<World>, calls: seq<Call>, n: nat, id: Id) returns (i: nat)
    requires Trace(worlds, calls) && n <= |calls| && id < |worlds[n].documents|
    ensures if worlds[n].documents[id].onssaReference.Some? then
              && i < n && Refers(worlds[i], calls[i], id)
              && worlds[n].documents[id].onssaReference == Some(calls[i].reference)
              && forall k | i < k < n :: !Refers(worlds[k], calls[k], id)
            else forall k | 0 <= k < n :: !Refers(worlds[k], calls[k], id)
  {
    assert n > 0;
    assert Linked(worlds, calls, n - 1);
    DocumentKept(worlds[n - 1], calls[n - 1], id);
    if id >= |worlds[n - 1].documents| {
      UntouchedBefore(worlds, calls, n, id);
      i := 0;
    } else if Refers(worlds[n - 1], calls[n - 1], id) {
      i := n - 1;
    } else {
      i := ReferenceTold(worlds, calls, n - 1, id);
    }
  }

  lemma {:induction false} DocumentsGrow(worlds: seq<World>, calls: seq<Call>, k: nat, n: nat)
    requires Trace(worlds, calls) && k <= n <= |calls|
    ensures |worlds[k].documents| <= |worlds[n].documents|
    decreases n
  {
    if k < n {
      assert Linked(worlds, calls, n - 1);
      DocumentsGrow(worlds, calls, k, n - 1);
      NoDocumentGoes(worlds[n - 1], calls[n - 1]);
    }
  }

  lemma NoDocumentGoes(w: World, c: Call)
    ensures |w.documents| <= |Step(w, c).documents|
  {
    if !c.Exporting? && !c.Referencing? && !c.Approving? {
      ExportDocuments.OtherCallsKeepDocuments(w, c);
    }
  }

  /** Its validity was written by its last approval, and it has none before the first. */
  lemma {:induction false} ValidityFrom(worlds: seq<World>, calls: seq<Call>, n: nat, id: Id) returns (i: nat)
    requires Trace(worlds, calls) && n <= |calls| && id < |worlds[n].documents|
    ensures if worlds[n].documents[id].validUntil.Some? then
              && i < n && Approves(worlds[i], calls[i], id) && id < |worlds[i + 1].documents|
              && worlds[i + 1].documents[id].validUntil == worlds[n].documents[id].validUntil
              && forall k | i < k < n :: !Approves(worlds[k], calls[k], id)
            else forall k | 0 <= k < n :: !Approves(worlds[k], calls[k], id)
  {
    assert n > 0;
    assert Linked(worlds, calls, n - 1);
    DocumentKept(worlds[n - 1], calls[n - 1], id);
    if id >= |worlds[n - 1].documents| {
      UntouchedBefore(worlds, calls, n, id);
      i := 0;
    } else if Approves(worlds[n - 1], calls[n - 1], id) {
      i := n - 1;
    } else {
      i := ValidityFrom(worlds, calls, n - 1, id);
    }
  }

  /** It is valid until six calendar months after its last approval, and has no validity before the first. */
  lemma ApprovalTold(worlds: seq<World>, calls: seq<Call>, n: nat, id: Id) returns (i: nat)
    requires Trace(worlds, calls) && n <= |calls| && id < |worlds[n].documents|
    ensures if worlds[n].documents[id].validUntil.Some? then
              && i < n && Approves(worlds[i], calls[i], id)
              && (forall k | i < k < n :: !Approves(worlds[k], calls[k], id))
              && SixMonthsAfter(DateOf(worlds[i].now), worlds[n].documents[id].validUntil.value)
            else forall k | 0 <= k < n :: !Approves(worlds[k], calls[k], id)
  {
    i := ValidityFrom(worlds, calls, n, id);
    if worlds[n].documents[id].validUntil.Some? {
      assert Linked(worlds, calls, i);
      DocumentAfter(worlds[i], calls[i], id);
    }
  }

  /** It is approved once it has a reference or a validity, and only then. */
  lemma {:induction false} StatusTold(worlds: seq<World>, calls: seq<Call>, n: nat, id: Id)
    requires Trace(worlds, calls) && n <= |calls| && id < |worlds[n].documents|
    ensures var d := worlds[n].documents[id];
            d.status == if d.validUntil.Some? || d.onssaReference.Some? then Approved else InSubmission
  {
    assert n > 0;
    assert Linked(worlds, calls, n - 1);
    DocumentAfter(worlds[n - 1], calls[n - 1], id);
    if id < |worlds[n - 1].documents| {
      StatusTold(worlds, calls, n - 1, id);
    }
  }

  // ----- Scan rows -----

  /** In every run a scan row is of a scan that missed the cache and found a valid code, from where and when it was. */
  lemma {:induction false} ScanTold(worlds: seq<World>, calls: seq<Call>, n: nat, k: nat) returns (i: nat)
    requires Trace(worlds, calls) && n <= |calls| && k < |worlds[n].scans|
    ensures var e := worlds[n].scans[k];
            && i < n && calls[i] == Verifying(e.signature, e.ipAddress, true) && e.scannedAt == worlds[i].now
            && !Live(worlds[i], e.signature) && HoldsGood(worlds[i], e.signature)
  {
    assert n > 0;
    assert Linked(worlds, calls, n - 1);
    ScansAfter(worlds[n - 1], calls[n - 1]);
    if k < |worlds[n - 1].scans| {
      i := ScanTold(worlds, calls, n - 1, k);
      assert worlds[n].scans[k] == worlds[n].scans[..|worlds[n - 1].scans|][k];
    } else {
      i := n - 1;
    }
  }

  lemma ScansAfter(w: World, c: Call)
    ensures var scans := Step(w, c).scans;
            || scans == w.scans
            || (c.Verifying? && c.logged && !Live(w, c.signature) && HoldsGood(w, c.signature) &&
                scans == w.scans + [ScanEvent(c.signature, c.ip, w.now)])
  {
    if c.Verifying? {
      ValidLookup(w, c.signature);
    } else if IsSideCall(c) {
      SideCallsKeepTables(w, c);
    }
  }
}

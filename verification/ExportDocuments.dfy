/** Export documents: what stands behind each of them in every run, and how long an approval lasts. */
module ExportDocuments {
  import opened Text
  import opened Lifecycle
  import opened ExportDates
  import opened Registry
  import opened Changes
  import opened Ledger
  import opened Decisions

  predicate DocumentBacked(w: World, d: ExportDocument) {
    && d.certificationId < |w.certifications|
    && d.cooperativeId == w.certifications[d.certificationId].terms.cooperativeId
    && GrantedBefore(w.ledger, d.certificationId, d.createdAt)
    && (d.validUntil.Some? ==> d.status == Approved)
  }

  predicate DocumentsBacked(w: World) {
    forall i | 0 <= i < |w.documents| :: DocumentBacked(w, w.documents[i])
  }

  /** Terms never change and rows never go. */
  lemma BackingStays(w: World, c: Call, d: ExportDocument)
    requires DocumentBacked(w, d)
    ensures DocumentBacked(Step(w, c), d)
  {
    var w' := Step(w, c);
    LedgerGrows(w, c);
    TermsStay(w, c, d.certificationId);
  }

  /** Documents are appended by requests on GRANTED certifications and edited by approvals, by nothing else. */
  lemma DocumentsAfter(w: World, c: Call, i: nat)
    requires i < |Step(w, c).documents|
    ensures var d := Step(w, c).documents[i];
            || (i < |w.documents| && d == w.documents[i])
            || (i < |w.documents| && d.status == Approved &&
                d == w.documents[i].(status := Approved, onssaReference := d.onssaReference,
                                     validUntil := d.validUntil))
            || (c.Exporting? && c.id < |w.certifications| && w.certifications[c.id].currentStatus == Granted &&
                d.certificationId == c.id && d.cooperativeId == w.certifications[c.id].terms.cooperativeId &&
                d.createdAt == w.now && d.validUntil == None)
  {
    if !c.Exporting? && !c.Referencing? && !c.Approving? {
      OtherCallsKeepDocuments(w, c);
    }
  }

  lemma OtherCallsKeepDocuments(w: World, c: Call)
    requires !c.Exporting? && !c.Referencing? && !c.Approving?
    ensures Step(w, c).documents == w.documents
  {
    if IsInspection(c) {
      InspectionKeepsTables(w, c);
    }
  }

  lemma StepKeepsDocumentsBacked(w: World, c: Call)
    requires DocumentsBacked(w) && GrantsBacked(w)
    ensures DocumentsBacked(Step(w, c))
  {
    var w' := Step(w, c);
    forall i | 0 <= i < |w'.documents|
      ensures DocumentBacked(w', w'.documents[i])
    {
      DocumentsAfter(w, c, i);
      if i < |w.documents| {
        BackingStays(w, c, w.documents[i]);
      } else {
        NewDocumentBacked(w, c, w'.documents[i]);
      }
    }
  }

  lemma NewDocumentBacked(w: World, c: Call, d: ExportDocument)
    requires GrantsBacked(w) && c.Exporting? && c.id < |w.certifications|
    requires w.certifications[c.id].currentStatus == Granted
    requires d.certificationId == c.id && d.cooperativeId == w.certifications[c.id].terms.cooperativeId
    requires d.createdAt == w.now && d.validUntil == None
    ensures DocumentBacked(Step(w, c), d)
  {
    assert GrantedBefore(w.ledger, c.id, w.now);
    assert Step(w, c).certifications == w.certifications && Step(w, c).ledger == w.ledger;
  }

  /**
   * In every run, inspections included, each export document is for a certification whose grant was already in the
   * ledger, and carries that certification's cooperative.
   */
  lemma {:induction false} DocumentsAlwaysBacked(worlds: seq<World>, calls: seq<Call>, i: nat)
    requires Trace(worlds, calls) && i <= |calls|
    ensures DocumentsBacked(worlds[i])
  {
    if i > 0 {
      assert Linked(worlds, calls, i - 1);
      DocumentsAlwaysBacked(worlds, calls, i - 1);
      GrantsAlwaysBacked(worlds, calls, i - 1);
      StepKeepsDocumentsBacked(worlds[i - 1], calls[i - 1]);
    }
  }

  /** An approval lasts between 181 and 184 days, whatever the day. */
  lemma ApprovalLasts(w: World, id: Id)
    requires id < |w.documents|
    ensures var d := ValidateDocument(w, id).world.documents[id];
            && d.status == Approved && d.validUntil.Some? && Valid(d.validUntil.value)
            && 181 <= DayNumber(d.validUntil.value) - w.now / MS_PER_DAY <= 184
  {
    OverflowIsMakeDay(DateOf(w.now));
    ValidityWindow(DateOf(w.now));
  }
}

/** The ledger as evidence: a certification can be rebuilt from its rows, and a valid scan points at one of them. */
module Evidence {
  import opened Text
  import opened Lifecycle
  import opened Registry
  import opened Changes
  import opened Ledger
  import opened Decisions
  import opened QrActivity
  import opened Staleness

  // ----- Rebuilding a certification -----

  /** The draft a certification once was. */
  function Original(cert: Certification): Certification {
    NewDraft(cert.terms, cert.requestedBy, cert.requestedAt, cert.renewedFromId)
  }

  /** Folds the rows of one certification, oldest first, over a draft. */
  function Rebuilt(ledger: seq<LedgerRow>, id: Id, draft: Certification): Certification {
    if ledger == [] then draft
    else
      var last := ledger[|ledger| - 1];
      var earlier := Rebuilt(ledger[..|ledger| - 1], id, draft);
      if last.certificationId == id then Recorded(earlier, last) else earlier
  }

  predicate SameButStatus(a: Certification, b: Certification) {
    a == b.(currentStatus := a.currentStatus)
  }

  /** Every column of a certification but its status follows from its draft and its ledger rows. */
  predicate Sourced(certs: seq<Certification>, ledger: seq<LedgerRow>) {
    forall id | 0 <= id < |certs| :: SameButStatus(certs[id], Rebuilt(ledger, id, Original(certs[id])))
  }

  predicate FullySourced(certs: seq<Certification>, ledger: seq<LedgerRow>) {
    forall id | 0 <= id < |certs| :: certs[id] == Rebuilt(ledger, id, Original(certs[id]))
  }

  lemma RebuiltSnoc(ledger: seq<LedgerRow>, row: LedgerRow, id: Id, draft: Certification)
    ensures Rebuilt(ledger + [row], id, draft) ==
            if row.certificationId == id then Recorded(Rebuilt(ledger, id, draft), row) else Rebuilt(ledger, id, draft)
  {
    assert (ledger + [row])[..|ledger|] == ledger;
  }

  lemma {:induction false} RebuiltOfNobody(ledger: seq<LedgerRow>, id: Id, draft: Certification)
    requires forall i | 0 <= i < |ledger| :: ledger[i].certificationId != id
    ensures Rebuilt(ledger, id, draft) == draft
  {
    if ledger != [] {
      RebuiltOfNobody(ledger[..|ledger| - 1], id, draft);
    }
  }

  /** A row fixes the status it leaves behind, so it repairs whatever was overwritten before it. */
  lemma RecordedFromEither(a: Certification, b: Certification, row: LedgerRow)
    requires SameButStatus(a, b)
    ensures Recorded(a, row) == Recorded(b, row)
    ensures Original(Recorded(a, row)) == Original(a)
  {
  }

  lemma TransitionKeepsSourced(w: World, id: Id, cert: Certification, row: LedgerRow)
    requires Sourced(w.certifications, w.ledger) && IsTransition(w, id, cert, row)
    ensures Sourced(w.certifications[id := cert], w.ledger + [row])
    ensures cert == Rebuilt(w.ledger + [row], id, Original(cert))
    ensures FullySourced(w.certifications, w.ledger) ==> FullySourced(w.certifications[id := cert], w.ledger + [row])
  {
    var old_ := w.certifications[id];
    assert SameButStatus(old_, Rebuilt(w.ledger, id, Original(old_)));
    RecordedFromEither(old_, Rebuilt(w.ledger, id, Original(old_)), row);
    var certs := w.certifications[id := cert];
    forall other | 0 <= other < |certs|
      ensures Rebuilt(w.ledger + [row], other, Original(certs[other])) ==
              if other == id then cert else Rebuilt(w.ledger, other, Original(certs[other]))
    {
      RebuiltSnoc(w.ledger, row, other, Original(certs[other]));
    }
  }

  lemma DraftKeepsSourced(certs: seq<Certification>, ledger: seq<LedgerRow>, draft: Certification)
    requires IsFreshDraft(draft) && forall i | 0 <= i < |ledger| :: ledger[i].certificationId < |certs|
    ensures Sourced(certs, ledger) ==> Sourced(certs + [draft], ledger)
    ensures FullySourced(certs, ledger) ==> FullySourced(certs + [draft], ledger)
  {
    RebuiltOfNobody(ledger, |certs|, draft);
  }

  lemma ChangeKeepsSourced(d: Change, w: World, w': World)
    requires RowsLegal(w) && Sourced(w.certifications, w.ledger) && Applies(d, w, w')
    ensures Sourced(w'.certifications, w'.ledger)
    ensures FullySourced(w.certifications, w.ledger) && !d.Overwritten? ==> FullySourced(w'.certifications, w'.ledger)
  {
    match d
    case Untouched =>
    case Drafted(draft) => DraftKeepsSourced(w.certifications, w.ledger, draft);
    case Moved(id, cert, row) => TransitionKeepsSourced(w, id, cert, row);
    case Succeeded(id, cert, row, draft) =>
      TransitionKeepsSourced(w, id, cert, row);
      DraftKeepsSourced(w.certifications[id := cert], w.ledger + [row], draft);
    case Overwritten(id, status) =>
      assert SameButStatus(w.certifications[id], Rebuilt(w.ledger, id, Original(w.certifications[id])));
  }

  /** In every run, inspections included, all columns but the status can be rebuilt from the ledger. */
  lemma {:induction false} ColumnsAlwaysRebuild(worlds: seq<World>, calls: seq<Call>, i: nat)
    requires Trace(worlds, calls) && i <= |calls|
    ensures Sourced(worlds[i].certifications, worlds[i].ledger)
  {
    if i > 0 {
      assert Linked(worlds, calls, i - 1);
      ColumnsAlwaysRebuild(worlds, calls, i - 1);
      RowsAlwaysLegal(worlds, calls, i - 1);
      var d := ChangeOf(worlds[i - 1], calls[i - 1]);
      ChangeKeepsSourced(d, worlds[i - 1], worlds[i]);
    }
  }

  /** In CertificationService runs the whole certification, status included, is the fold of its ledger rows. */
  lemma {:induction false} LedgerRebuildsAll(worlds: seq<World>, calls: seq<Call>, i: nat)
    requires Trace(worlds, calls) && LedgerOnly(calls) && i <= |calls|
    ensures FullySourced(worlds[i].certifications, worlds[i].ledger)
  {
    if i > 0 {
      assert Linked(worlds, calls, i - 1);
      LedgerRebuildsAll(worlds, calls, i - 1);
      RowsAlwaysLegal(worlds, calls, i - 1);
      ColumnsAlwaysRebuild(worlds, calls, i - 1);
      var d := ChangeOf(worlds[i - 1], calls[i - 1]);
      ChangeKeepsSourced(d, worlds[i - 1], worlds[i]);
    }
  }

  // ----- The row behind a grant -----

  /** Row k is the last grant row of the certification and says what the certification says. */
  predicate GrantedBy(ledger: seq<LedgerRow>, k: nat, id: Id, cert: Certification) {
    && k < |ledger| && IsGrantRow(ledger[k], id)
    && (forall m | k < m < |ledger| :: !IsGrantRow(ledger[m], id))
    && cert.certificationNumber.Some? && cert.grant.Some?
    && ledger[k].payload ==
       Award(cert.certificationNumber.value, cert.grant.value.validFrom, cert.grant.value.validUntil)
    && ledger[k].actor.id == cert.grant.value.userId && ledger[k].occurredAt == cert.grant.value.at
  }

  predicate RowsDocumented(ledger: seq<LedgerRow>) {
    forall i | 0 <= i < |ledger| :: Documented(ledger[i])
  }

  lemma {:induction false} RowsAlwaysDocumented(worlds: seq<World>, calls: seq<Call>, i: nat)
    requires Trace(worlds, calls) && i <= |calls|
    ensures RowsDocumented(worlds[i].ledger)
  {
    if i > 0 {
      assert Linked(worlds, calls, i - 1);
      RowsAlwaysDocumented(worlds, calls, i - 1);
      var d := ChangeOf(worlds[i - 1], calls[i - 1]);
    }
  }

  lemma {:induction false} RebuiltGrant(ledger: seq<LedgerRow>, id: Id, draft: Certification) returns (k: nat)
    requires RowsDocumented(ledger) && draft.grant.None?
    requires Rebuilt(ledger, id, draft).grant.Some?
    ensures GrantedBy(ledger, k, id, Rebuilt(ledger, id, draft))
  {
    var n := |ledger| - 1;
    if IsGrantRow(ledger[n], id) {
      k := n;
    } else {
      k := RebuiltGrant(ledger[..n], id, draft);
      assert ledger[k] == ledger[..n][k];
      assert forall m | k < m < n :: ledger[m] == ledger[..n][m];
    }
  }

  /** In every run grant data come from exactly the last DECISION_GRANTED row of the certification. */
  lemma GrantHasItsRow(worlds: seq<World>, calls: seq<Call>, i: nat, id: Id) returns (k: nat)
    requires Trace(worlds, calls) && i <= |calls| && id < |worlds[i].certifications|
    requires worlds[i].certifications[id].grant.Some?
    ensures GrantedBy(worlds[i].ledger, k, id, worlds[i].certifications[id])
  {
    ColumnsAlwaysRebuild(worlds, calls, i);
    RowsAlwaysDocumented(worlds, calls, i);
    var cert := worlds[i].certifications[id];
    assert SameButStatus(cert, Rebuilt(worlds[i].ledger, id, Original(cert)));
    k := RebuiltGrant(worlds[i].ledger, id, Original(cert));
  }

  // ----- Expiry -----

  /** Active codes expire when their certification does now, not when it did once. */
  ghost predicate ExpiryFollows(w: World) {
    forall s | s in w.qrCodes && w.qrCodes[s].isActive ::
      && s.certificationId < |w.certifications|
      && (match w.certifications[s.certificationId].grant
          case Some(grant) => w.qrCodes[s].expiresAt == Some(grant.validUntil)
          case None => w.qrCodes[s].expiresAt == None)
  }

  /** Older codes of id may expire differently; generating a code silences them. */
  ghost predicate ExpiryFollowsBut(w: World, id: Id) {
    forall s | s in w.qrCodes && w.qrCodes[s].isActive && s.certificationId != id ::
      && s.certificationId < |w.certifications|
      && w.qrCodes[s].expiresAt == ExpiryOf(w.certifications[s.certificationId])
  }

  lemma GenerateKeepsExpiry(w: World, id: Id)
    requires ExpiryFollowsBut(w, id) && id < |w.certifications|
    ensures ExpiryFollows(GenerateQrCode(w, id).world)
  {
    var w' := GenerateQrCode(w, id).world;
    var issued := Signature(id, w.now);
    var cleared := Deactivate(w.qrCodes, id);
    forall s | s in w'.qrCodes && w'.qrCodes[s].isActive
      ensures s.certificationId < |w'.certifications|
      ensures w'.qrCodes[s].expiresAt == ExpiryOf(w'.certifications[s.certificationId])
    {
      assert s == issued || (s in cleared && w'.qrCodes[s] == cleared[s]);
    }
  }

  lemma ChangeKeepsExpiry(d: Change, w: World, w': World)
    requires ExpiryFollows(w) && Applies(d, w, w') && (d.Moved? ==> d.row.edge.event != DecisionGranted)
    requires w'.qrCodes.Keys == w.qrCodes.Keys
    requires forall s | s in w.qrCodes && w'.qrCodes[s].isActive ::
               w.qrCodes[s].isActive && w'.qrCodes[s].expiresAt == w.qrCodes[s].expiresAt
    ensures ExpiryFollows(w')
  {
    forall s | s in w'.qrCodes && w'.qrCodes[s].isActive
      ensures s.certificationId < |w'.certifications|
      ensures w'.qrCodes[s].expiresAt == ExpiryOf(w'.certifications[s.certificationId])
    {
      assert w'.certifications[s.certificationId].grant == w.certifications[s.certificationId].grant;
    }
  }

  /** Calls other than the two that issue codes only silence codes and count scans. */
  lemma CodesOnlyShrink(w: World, c: Call)
    requires !c.Granting? && !c.Generating?
    ensures Step(w, c).qrCodes.Keys == w.qrCodes.Keys
    ensures forall s | s in w.qrCodes && Step(w, c).qrCodes[s].isActive ::
              w.qrCodes[s].isActive && Step(w, c).qrCodes[s].expiresAt == w.qrCodes[s].expiresAt
  {
    match c
    case Revoking(id, reason, actor) =>
      if Guard(w, id, Granted).None? {
        RevokedTables(w, id, reason, actor);
      }
    case Verifying(_, _, _) =>
    case _ => CodesUntouched(w, c);
  }

  lemma StepKeepsExpiry(w: World, c: Call)
    requires ExpiryFollows(w)
    ensures ExpiryFollows(Step(w, c))
  {
    match c
    case Granting(id, from, until, year, actor) =>
      if Guard(w, id, UnderReview).None? {
        GenerateKeepsExpiry(GrantTransition(w, id, from, until, year, actor), id);
      }
    case Generating(id) =>
      if id < |w.certifications| {
        GenerateKeepsExpiry(w, id);
      }
    case _ => OtherStepKeepsExpiry(w, c);
  }

  lemma OtherStepKeepsExpiry(w: World, c: Call)
    requires ExpiryFollows(w) && !c.Granting? && !c.Generating?
    ensures ExpiryFollows(Step(w, c))
  {
    var d := ChangeOf(w, c);
    OnlyGrantsGrant(d, w, c);
    CodesOnlyShrink(w, c);
    ChangeKeepsExpiry(d, w, Step(w, c));
  }

  /** In every run of atomic calls, repeated grants and regeneration included, active codes expire with the grant. */
  lemma {:induction false} ActiveCodesExpireWithGrant(worlds: seq<World>, calls: seq<Call>, i: nat)
    requires Trace(worlds, calls) && i <= |calls|
    ensures ExpiryFollows(worlds[i])
  {
    if i > 0 {
      assert Linked(worlds, calls, i - 1);
      ActiveCodesExpireWithGrant(worlds, calls, i - 1);
      StepKeepsExpiry(worlds[i - 1], calls[i - 1]);
    }
  }

  /**
   * End to end, in every run of all services: a "valid: true" answer shows a certification which, at some instant of
   * the last 300 000 ms, was GRANTED and within the validity that its last DECISION_GRANTED row states, under the
   * number that row states.
   */
  lemma ValidIsWithinRecordedValidity(worlds: seq<World>, calls: seq<Call>, i: nat, s: Signature)
    returns (j: nat, k: nat)
    requires Trace(worlds, calls) && i <= |calls| && Answer(worlds[i], s).valid
    ensures Explains(worlds, j, i, s, Answer(worlds[i], s)) && HoldsGood(worlds[j], s)
    ensures Answer(worlds[i], s).certification == Some(worlds[j].certifications[s.certificationId])
    ensures GrantedBy(worlds[j].ledger, k, s.certificationId, worlds[j].certifications[s.certificationId])
    ensures worlds[j].now <= worlds[j].ledger[k].payload.validUntil
  {
    j := ValidMeansRecentlyGood(worlds, calls, i, s);
    ValidLookup(worlds[j], s);
    GrantsAlwaysBacked(worlds, calls, j);
    ActiveCodesExpireWithGrant(worlds, calls, j);
    k := GrantHasItsRow(worlds, calls, j, s.certificationId);
  }
}

/** Which QR codes are active, over whole runs. */
module QrActivity {
  import opened Text
  import opened Lifecycle
  import opened Registry
  import opened Changes
  import opened Decisions

  ghost predicate OneActive(codes: map<Signature, QrCode>) {
    forall s, t ::
      s in codes && t in codes && codes[s].isActive && codes[t].isActive && s.certificationId == t.certificationId
      ==> s == t
  }

  /** With one active code per certification, findOne has nothing to choose. */
  lemma ActiveIsUnique(codes: map<Signature, QrCode>, id: Id, s: Signature)
    requires OneActive(codes) && ActiveFor(codes, id, s)
    ensures FindActive(codes, id) == Some(s)
  {
    var r := FindActive(codes, id);
    assert ActiveFor(codes, id, r.value);
  }

  lemma DeactivateClears(codes: map<Signature, QrCode>, id: Id)
    requires OneActive(codes)
    ensures OneActive(Deactivate(codes, id))
    ensures forall s :: !ActiveFor(Deactivate(codes, id), id, s)
  {
  }

  lemma GenerateKeepsOneActive(w: World, id: Id)
    requires OneActive(w.qrCodes)
    ensures OneActive(GenerateQrCode(w, id).world.qrCodes)
  {
    DeactivateClears(w.qrCodes, id);
    var cleared := Deactivate(w.qrCodes, id);
    var s := Signature(id, w.now);
    var codes := GenerateQrCode(w, id).world.qrCodes;
    if id < |w.certifications| && s !in w.qrCodes {
      forall t, u | t in codes && u in codes && codes[t].isActive && codes[u].isActive &&
          t.certificationId == u.certificationId
        ensures t == u
      {
        if t == s && u != s {
          assert ActiveFor(cleared, id, u);
        } else if u == s && t != s {
          assert ActiveFor(cleared, id, t);
        }
      }
    }
  }

  lemma StepKeepsOneActive(w: World, c: Call)
    requires OneActive(w.qrCodes)
    ensures OneActive(Step(w, c).qrCodes)
  {
    if c.Granting? {
      if Guard(w, c.id, UnderReview).None? {
        GenerateKeepsOneActive(GrantTransition(w, c.id, c.validFrom, c.validUntil, c.year, c.actor), c.id);
      }
    } else if c.Generating? {
      GenerateKeepsOneActive(w, c.id);
    } else if c.Revoking? {
      DeactivateClears(w.qrCodes, c.id);
    } else if c.Verifying? {
      ScanKeepsOneActive(w, c);
    } else {
      CodesUntouched(w, c);
    }
  }

  lemma ScanKeepsOneActive(w: World, c: Call)
    requires OneActive(w.qrCodes) && c.Verifying?
    ensures OneActive(Step(w, c).qrCodes)
  {
    var codes := Step(w, c).qrCodes;
    assert codes.Keys == w.qrCodes.Keys;
    assert forall s | s in codes :: codes[s].isActive == w.qrCodes[s].isActive;
  }

  /** In every run, regeneration and inspections included, a certification never has two active codes. */
  lemma {:induction false} AlwaysOneActive(worlds: seq<World>, calls: seq<Call>, i: nat)
    requires Trace(worlds, calls) && i <= |calls|
    ensures OneActive(worlds[i].qrCodes)
  {
    if i > 0 {
      assert Linked(worlds, calls, i - 1);
      AlwaysOneActive(worlds, calls, i - 1);
      StepKeepsOneActive(worlds[i - 1], calls[i - 1]);
    }
  }

  // ----- Without direct regeneration -----

  /** The code of a grant: issued for this certification at the instant it was granted. */
  predicate IsGrantCode(w: World, s: Signature) {
    && s.certificationId < |w.certifications|
    && w.certifications[s.certificationId].grant.Some?
    && w.certifications[s.certificationId].grant.value.at == s.issuedAt
  }

  /** A code is active while its certification is GRANTED or RENEWED. */
  predicate ShouldBeActive(cert: Certification) {
    cert.currentStatus == Granted || cert.currentStatus == Renewed
  }

  /** Exactly the grant codes exist, and exactly those that should be active are. */
  ghost predicate CodesFollowGrants(w: World) {
    && (forall s :: s in w.qrCodes <==> IsGrantCode(w, s))
    && (forall s | s in w.qrCodes ::
          w.qrCodes[s].isActive <==> ShouldBeActive(w.certifications[s.certificationId]))
  }

  lemma GrantIssuesItsCode(w: World, id: Id, from: Time, until: Time, year: nat, actor: Actor)
    requires AllFieldsAgree(w) && CodesFollowGrants(w)
    ensures CodesFollowGrants(GrantCertification(w, id, from, until, year, actor).world)
  {
    if Guard(w, id, UnderReview).None? {
      assert FieldsAgree(w.certifications[id]);
    }
  }

  lemma MoveKeepsCodes(w: World, w': World, id: Id, cert: Certification, row: LedgerRow)
    requires CodesFollowGrants(w) && AllFieldsAgree(w) && IsTransition(w, id, cert, row)
    requires row.edge.event != DecisionGranted && row.edge.event != CertificateRevoked
    requires w'.certifications == w.certifications[id := cert]
    requires w'.qrCodes == w.qrCodes
    ensures CodesFollowGrants(w')
  {
    assert FieldsAgree(w.certifications[id]);
    assert cert.grant == w.certifications[id].grant;
    assert forall s :: IsGrantCode(w', s) == IsGrantCode(w, s);
    forall s | s in w'.qrCodes
      ensures w'.qrCodes[s].isActive <==>
              ShouldBeActive(w'.certifications[s.certificationId])
    {
      assert IsGrantCode(w, s);
    }
  }

  lemma RevokeClearsCodes(w: World, id: Id, reason: string, actor: Actor)
    requires CodesFollowGrants(w)
    ensures CodesFollowGrants(RevokeCertification(w, id, reason, actor).world)
  {
    if Guard(w, id, Granted).None? {
      var w' := RevokeCertification(w, id, reason, actor).world;
      RevokedTables(w, id, reason, actor);
      assert forall s :: IsGrantCode(w', s) == IsGrantCode(w, s);
      forall s | s in w'.qrCodes
        ensures w'.qrCodes[s].isActive <==>
                ShouldBeActive(w'.certifications[s.certificationId])
      {
        assert IsGrantCode(w, s);
      }
    }
  }

  /** The certification and code tables after an accepted revocation. */
  lemma RevokedTables(w: World, id: Id, reason: string, actor: Actor)
    requires Guard(w, id, Granted).None?
    ensures var w' := RevokeCertification(w, id, reason, actor).world;
            && w'.qrCodes == Deactivate(w.qrCodes, id) && w'.qrCodes.Keys == w.qrCodes.Keys
            && w'.certifications == w.certifications[id := w.certifications[id].(
                   currentStatus := Revoked, revocation := Some(Refusal(actor.id, w.now, reason)))]
  {
  }

  lemma AppendKeepsCodes(w: World, w': World, draft: Certification)
    requires CodesFollowGrants(w) && IsFreshDraft(draft)
    requires w'.certifications == w.certifications + [draft] && w'.qrCodes == w.qrCodes
    ensures CodesFollowGrants(w')
  {
    assert forall s :: IsGrantCode(w', s) == IsGrantCode(w, s);
    assert forall s | IsGrantCode(w, s) :: w'.certifications[s.certificationId] == w.certifications[s.certificationId];
  }

  lemma StepKeepsCodesFollow(w: World, c: Call)
    requires CodesFollowGrants(w)
    requires AllFieldsAgree(w) && !IsInspection(c) && !c.Generating?
    ensures CodesFollowGrants(Step(w, c))
  {
    match c
    case Granting(id, from, until, year, actor) => GrantIssuesItsCode(w, id, from, until, year, actor);
    case Revoking(id, reason, actor) => RevokeClearsCodes(w, id, reason, actor);
    case Verifying(_, _, _) =>
    case _ => OtherStepKeepsCodes(w, c);
  }

  lemma OtherStepKeepsCodes(w: World, c: Call)
    requires CodesFollowGrants(w) && AllFieldsAgree(w) && !IsInspection(c) && !c.Generating?
    requires !c.Granting? && !c.Revoking? && !c.Verifying?
    ensures CodesFollowGrants(Step(w, c))
  {
    var w' := Step(w, c);
    var d := ChangeOf(w, c);
    CodesUntouched(w, c);
    match d
    case Untouched => assert forall s :: IsGrantCode(w', s) == IsGrantCode(w, s);
    case Drafted(draft) => AppendKeepsCodes(w, w', draft);
    case Moved(id, cert, row) =>
      MoveKeepsCodes(w, w', id, cert, row);
    case Succeeded(id, cert, row, draft) =>
      var mid := w.(certifications := w.certifications[id := cert]);
      MoveKeepsCodes(w, mid, id, cert, row);
      AppendKeepsCodes(mid, w', draft);
  }

  lemma CodesUntouched(w: World, c: Call)
    requires !c.Generating? && !c.Granting? && !c.Revoking? && !c.Verifying?
    ensures Step(w, c).qrCodes == w.qrCodes
  {
    if IsSideCall(c) {
      SideCallsKeepTables(w, c);
    }
  }

  /** In CertificationService runs without direct regeneration the codes follow the grants. */
  lemma {:induction false} CodesAlwaysFollowGrants(worlds: seq<World>, calls: seq<Call>, i: nat)
    requires Trace(worlds, calls) && LedgerOnly(calls) && NoRegeneration(calls) && i <= |calls|
    ensures CodesFollowGrants(worlds[i])
  {
    if i > 0 {
      assert Linked(worlds, calls, i - 1);
      CodesAlwaysFollowGrants(worlds, calls, i - 1);
      FieldsAlwaysAgree(worlds, calls, i - 1);
      StepKeepsCodesFollow(worlds[i - 1], calls[i - 1]);
    }
  }

  /** A REVOKED certification has no active code; a GRANTED or RENEWED one has exactly one. */
  lemma ActiveCodeByStatus(worlds: seq<World>, calls: seq<Call>, i: nat, id: Id)
    requires Trace(worlds, calls) && LedgerOnly(calls) && NoRegeneration(calls) && i <= |calls|
    requires id < |worlds[i].certifications|
    ensures var status := worlds[i].certifications[id].currentStatus;
            FindActive(worlds[i].qrCodes, id).Some? <==> status == Granted || status == Renewed
  {
    var w := worlds[i];
    CodesAlwaysFollowGrants(worlds, calls, i);
    FieldsAlwaysAgree(worlds, calls, i);
    assert FieldsAgree(w.certifications[id]);
    if w.certifications[id].grant.Some? {
      var s := Signature(id, w.certifications[id].grant.value.at);
      assert IsGrantCode(w, s);
      assert ActiveFor(w.qrCodes, id, s) <==> w.qrCodes[s].isActive;
    }
  }

  /** A status written past the ledger keeps codes and grants together exactly when no code should be active. */
  lemma OverwriteKeepsCodesIff(w: World, id: Id, status: Status)
    requires CodesFollowGrants(w) && AllFieldsAgree(w) && id < |w.certifications|
    requires status == Status.InspectionScheduled || status == InspectionComplete
    ensures CodesFollowGrants(OverwriteStatus(w, id, status)) <==> !ShouldBeActive(w.certifications[id])
  {
    var w' := OverwriteStatus(w, id, status);
    var cert := w.certifications[id];
    assert FieldsAgree(cert);
    assert forall s :: IsGrantCode(w', s) == IsGrantCode(w, s);
    if ShouldBeActive(cert) {
      var s := Signature(id, cert.grant.value.at);
      assert IsGrantCode(w, s) && w'.qrCodes[s].isActive;
    } else {
      forall s | s in w'.qrCodes
        ensures w'.qrCodes[s].isActive <==> ShouldBeActive(w'.certifications[s.certificationId])
      {
        assert IsGrantCode(w, s);
      }
    }
  }
}

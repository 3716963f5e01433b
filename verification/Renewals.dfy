/** Renewal chains in runs of CertificationService. */
module Renewals {
  import opened Text
  import opened Lifecycle
  import opened Registry
  import opened Changes
  import opened Ledger
  import opened SplitCalls

  /** i was created by renewing p. */
  predicate Renews(certs: seq<Certification>, i: Id, p: Id) {
    i < |certs| && certs[i].renewedFromId == Some(p)
  }

  /** Links point backwards to RENEWED rows about the same thing, and no two rows renew the same one. */
  predicate LinksSound(certs: seq<Certification>) {
    && (forall i | 0 <= i < |certs| && certs[i].renewedFromId.Some? ::
          var p := certs[i].renewedFromId.value;
          p < i && certs[p].currentStatus == Renewed && certs[p].terms == certs[i].terms)
    && (forall i, j | 0 <= i < |certs| && 0 <= j < |certs| ::
          certs[i].renewedFromId.Some? && certs[i].renewedFromId == certs[j].renewedFromId ==> i == j)
  }

  /** Every RENEWED row has a row that renews it. */
  ghost predicate LinksComplete(certs: seq<Certification>) {
    forall p | 0 <= p < |certs| && certs[p].currentStatus == Renewed :: exists i :: Renews(certs, i, p)
  }

  lemma TransitionKeepsLinks(w: World, id: Id, cert: Certification, row: LedgerRow)
    requires IsTransition(w, id, cert, row) && LinksSound(w.certifications)
    ensures LinksSound(w.certifications[id := cert])
    ensures cert.renewedFromId == w.certifications[id].renewedFromId && cert.terms == w.certifications[id].terms
  {
    assert w.certifications[id].currentStatus != Renewed;
    var certs := w.certifications[id := cert];
    forall i | 0 <= i < |certs|
      ensures certs[i].renewedFromId == w.certifications[i].renewedFromId && certs[i].terms == w.certifications[i].terms
      ensures w.certifications[i].currentStatus == Renewed ==> certs[i].currentStatus == Renewed
    {
    }
  }

  lemma MoveKeepsComplete(w: World, id: Id, cert: Certification, row: LedgerRow)
    requires IsTransition(w, id, cert, row) && row.edge.event != CertificateRenewed && LinksComplete(w.certifications)
    ensures LinksComplete(w.certifications[id := cert])
  {
    var certs := w.certifications[id := cert];
    ArrivalOf(row.edge.event);
    forall p | 0 <= p < |certs| && certs[p].currentStatus == Renewed
      ensures exists i :: Renews(certs, i, p)
    {
      assert w.certifications[p].currentStatus == Renewed;
      var i :| Renews(w.certifications, i, p);
      assert Renews(certs, i, p);
    }
  }

  lemma AppendKeepsSound(certs: seq<Certification>, draft: Certification)
    requires LinksSound(certs)
    requires draft.renewedFromId.None?
    ensures LinksSound(certs + [draft])
  {
  }

  lemma AppendKeepsComplete(certs: seq<Certification>, draft: Certification)
    requires LinksComplete(certs) && draft.currentStatus != Renewed
    ensures LinksComplete(certs + [draft])
  {
    forall p | 0 <= p < |certs| && certs[p].currentStatus == Renewed
      ensures exists i :: Renews(certs + [draft], i, p)
    {
      var i :| Renews(certs, i, p);
      assert Renews(certs + [draft], i, p);
    }
  }

  lemma LinkedDraftKeepsSound(certs: seq<Certification>, draft: Certification, id: Id)
    requires LinksSound(certs) && id < |certs| && certs[id].currentStatus == Renewed
    requires draft.renewedFromId == Some(id) && draft.terms == certs[id].terms
    requires forall i :: !Renews(certs, i, id)
    ensures LinksSound(certs + [draft])
  {
    var new_ := certs + [draft];
    assert forall i | 0 <= i < |certs| :: !Renews(certs, i, id);
    forall i, j | 0 <= i < |new_| && 0 <= j < |new_| && new_[i].renewedFromId.Some? &&
        new_[i].renewedFromId == new_[j].renewedFromId
      ensures i == j
    {
      assert i < |certs| ==> !Renews(certs, i, id) && new_[i] == certs[i];
      assert j < |certs| ==> !Renews(certs, j, id) && new_[j] == certs[j];
    }
  }

  lemma LinkedDraftKeepsComplete(certs: seq<Certification>, cert: Certification, draft: Certification, id: Id)
    requires LinksComplete(certs) && id < |certs| && cert.renewedFromId == certs[id].renewedFromId
    requires draft.renewedFromId == Some(id) && draft.currentStatus != Renewed
    ensures LinksComplete(certs[id := cert] + [draft])
  {
    var new_ := certs[id := cert] + [draft];
    forall p | 0 <= p < |new_| && new_[p].currentStatus == Renewed
      ensures exists i :: Renews(new_, i, p)
    {
      if p == id {
        assert Renews(new_, |certs|, p);
      } else {
        var i :| Renews(certs, i, p);
        assert Renews(new_, i, p);
      }
    }
  }

  lemma RenewalKeepsLinks(w: World, id: Id, cert: Certification, row: LedgerRow, draft: Certification)
    requires IsTransition(w, id, cert, row) && row.edge.event == CertificateRenewed
    requires LinksSound(w.certifications) && LinksComplete(w.certifications)
    requires IsFreshDraft(draft) && draft.renewedFromId == Some(id) && draft.terms == cert.terms
    ensures LinksSound(w.certifications[id := cert] + [draft])
    ensures LinksComplete(w.certifications[id := cert] + [draft])
  {
    TransitionKeepsLinks(w, id, cert, row);
    assert w.certifications[id].currentStatus == Granted;
    var certs := w.certifications[id := cert];
    assert forall i | 0 <= i < |certs| :: certs[i].renewedFromId == w.certifications[i].renewedFromId;
    LinkedDraftKeepsSound(certs, draft, id);
    LinkedDraftKeepsComplete(w.certifications, cert, draft, id);
  }

  lemma StepKeepsLinks(w: World, c: Call)
    requires LinksSound(w.certifications) && LinksComplete(w.certifications) && !IsInspection(c)
    ensures LinksSound(Step(w, c).certifications) && LinksComplete(Step(w, c).certifications)
  {
    var d := ChangeOf(w, c);
    match d
    case Untouched =>
    case Drafted(draft) =>
      AppendKeepsSound(w.certifications, draft);
      AppendKeepsComplete(w.certifications, draft);
    case Moved(id, cert, row) =>
      TransitionKeepsLinks(w, id, cert, row);
      MoveKeepsComplete(w, id, cert, row);
    case Succeeded(id, cert, row, draft) => RenewalKeepsLinks(w, id, cert, row, draft);
  }

  /**
   * In every run of CertificationService calls renewedFromId is acyclic, injective and onto the RENEWED rows, and it
   * links rows about the same batch, cooperative, product, type and region.
   */
  lemma {:induction false} LinksAlwaysSound(worlds: seq<World>, calls: seq<Call>, i: nat)
    requires Trace(worlds, calls) && LedgerOnly(calls) && i <= |calls|
    ensures LinksSound(worlds[i].certifications) && LinksComplete(worlds[i].certifications)
  {
    if i > 0 {
      assert Linked(worlds, calls, i - 1);
      LinksAlwaysSound(worlds, calls, i - 1);
      StepKeepsLinks(worlds[i - 1], calls[i - 1]);
    }
  }

  /** The row a chain began with. */
  function Root(certs: seq<Certification>, i: Id): (r: Id)
    requires i < |certs|
    ensures r <= i
    decreases i
  {
    match certs[i].renewedFromId
    case None => i
    case Some(p) => if p < i then Root(certs, p) else i
  }

  /** a was renewed, perhaps repeatedly, into b. */
  predicate Precedes(certs: seq<Certification>, a: Id, b: Id)
    requires b < |certs|
    decreases b
  {
    match certs[b].renewedFromId
    case None => false
    case Some(p) => a == p || (p < b && Precedes(certs, a, p))
  }

  lemma {:induction false} PredecessorIsRenewed(certs: seq<Certification>, a: Id, b: Id)
    requires LinksSound(certs) && b < |certs| && Precedes(certs, a, b)
    ensures a < b && certs[a].currentStatus == Renewed && certs[a].terms == certs[b].terms
    decreases b
  {
    var p := certs[b].renewedFromId.value;
    if a != p {
      PredecessorIsRenewed(certs, a, p);
    }
  }

  /** Whoever precedes b through p's own child c precedes c or is p. */
  lemma {:induction false} ThroughChild(certs: seq<Certification>, p: Id, b: Id, c: Id)
    requires LinksSound(certs) && b < |certs| && Precedes(certs, p, b) && Renews(certs, c, p)
    ensures c == b || Precedes(certs, c, b)
    decreases b
  {
    var q := certs[b].renewedFromId.value;
    if p == q {
      assert c == b;
    } else {
      ThroughChild(certs, p, q, c);
    }
  }

  /** Rows of one chain are linearly ordered by renewal. */
  lemma {:induction false} ChainIsLinear(certs: seq<Certification>, a: Id, b: Id)
    requires LinksSound(certs) && a < |certs| && b < |certs| && Root(certs, a) == Root(certs, b)
    ensures a == b || Precedes(certs, a, b) || Precedes(certs, b, a)
    decreases a + b, a
  {
    if a > b {
      ChainIsLinear(certs, b, a);
    } else if a < b {
      assert certs[b].renewedFromId.Some?;
      var p := certs[b].renewedFromId.value;
      ChainIsLinear(certs, a, p);
      if Precedes(certs, p, a) {
        ThroughChild(certs, p, a, b);
        PredecessorChainContradiction(certs, a, b);
      }
    }
  }

  lemma PredecessorChainContradiction(certs: seq<Certification>, a: Id, b: Id)
    requires LinksSound(certs) && a < b < |certs|
    ensures !Precedes(certs, b, a)
  {
    if Precedes(certs, b, a) {
      PredecessorIsRenewed(certs, b, a);
      assert false;
    }
  }

  /**
   * Over a whole chain the terms are constant, of any two members the earlier is RENEWED, and so at most one member is
   * anything else - in particular at most one is GRANTED.
   */
  lemma OneLiveMemberPerChain(worlds: seq<World>, calls: seq<Call>, i: nat, a: Id, b: Id)
    requires Trace(worlds, calls) && LedgerOnly(calls) && i <= |calls|
    requires a < b < |worlds[i].certifications|
    requires Root(worlds[i].certifications, a) == Root(worlds[i].certifications, b)
    ensures Precedes(worlds[i].certifications, a, b)
    ensures worlds[i].certifications[a].currentStatus == Renewed
    ensures worlds[i].certifications[a].terms == worlds[i].certifications[b].terms
  {
    LinksAlwaysSound(worlds, calls, i);
    ChainIsLinear(worlds[i].certifications, a, b);
    PredecessorChainContradiction(worlds[i].certifications, a, b);
    PredecessorIsRenewed(worlds[i].certifications, a, b);
  }

  /** The successor that verification surfaces is the only row linked to the RENEWED one. */
  lemma SuccessorIsUnique(worlds: seq<World>, calls: seq<Call>, i: nat, p: Id, j: Id)
    requires Trace(worlds, calls) && LedgerOnly(calls) && i <= |calls|
    requires p < |worlds[i].certifications|
    ensures Successor(worlds[i].certifications, p, 0) == Some(j) <==> Renews(worlds[i].certifications, j, p)
    ensures worlds[i].certifications[p].currentStatus == Renewed <==>
            Successor(worlds[i].certifications, p, 0).Some?
  {
    var certs := worlds[i].certifications;
    LinksAlwaysSound(worlds, calls, i);
    var found := Successor(certs, p, 0);
    if certs[p].currentStatus == Renewed {
      var k :| Renews(certs, k, p);
    }
    if found.Some? {
      assert Renews(certs, found.value, p);
    }
  }

  // ----- Where the links break -----

  /** A status written past the ledger keeps the links exactly when the certification is not RENEWED. */
  lemma OverwriteKeepsLinksIff(w: World, id: Id, status: Status)
    requires LinksSound(w.certifications) && LinksComplete(w.certifications) && id < |w.certifications|
    requires status == Status.InspectionScheduled || status == InspectionComplete
    ensures var certs := OverwriteStatus(w, id, status).certifications;
            LinksSound(certs) && LinksComplete(certs) <==> w.certifications[id].currentStatus != Renewed
  {
    var certs := OverwriteStatus(w, id, status).certifications;
    assert forall i | 0 <= i < |certs| :: certs[i].renewedFromId == w.certifications[i].renewedFromId;
    if w.certifications[id].currentStatus == Renewed {
      var i: Id :| Renews(w.certifications, i, id);
      assert certs[i].renewedFromId == Some(id) && certs[id].currentStatus != Renewed;
    } else {
      forall p | 0 <= p < |certs| && certs[p].currentStatus == Renewed
        ensures exists i :: Renews(certs, i, p)
      {
        var i :| Renews(w.certifications, i, p);
        assert Renews(certs, i, p);
      }
    }
  }

  /** Scheduling an inspection keeps the links exactly when the certification is not RENEWED. */
  lemma SchedulingKeepsLinksIff(w: World, dto: ScheduleDto)
    requires LinksSound(w.certifications) && LinksComplete(w.certifications)
    requires dto.certificationId < |w.certifications|
    ensures var certs := ScheduleInspection(w, dto).world.certifications;
            LinksSound(certs) && LinksComplete(certs) <==>
            w.certifications[dto.certificationId].currentStatus != Renewed
  {
    OverwriteKeepsLinksIff(w, dto.certificationId, Status.InspectionScheduled);
    assert ScheduleInspection(w, dto).world.certifications ==
           OverwriteStatus(w, dto.certificationId, Status.InspectionScheduled).certifications;
  }

  /** Completing an open inspection keeps them exactly when the certification is not RENEWED. */
  lemma CompletingKeepsLinksIff(w: World, id: Id, dto: CompleteDto, inspector: string)
    requires LinksSound(w.certifications) && LinksComplete(w.certifications)
    requires id < |w.inspections| && w.inspections[id].certificationId < |w.certifications|
    requires w.inspections[id].status == Scheduled || w.inspections[id].status == InProgress
    ensures var certs := CompleteInspection(w, id, dto, inspector).world.certifications;
            LinksSound(certs) && LinksComplete(certs) <==>
            w.certifications[w.inspections[id].certificationId].currentStatus != Renewed
  {
    var cert := w.inspections[id].certificationId;
    OverwriteKeepsLinksIff(w, cert, InspectionComplete);
    assert CompleteInspection(w, id, dto, inspector).world.certifications ==
           OverwriteStatus(w, cert, InspectionComplete).certifications;
  }

  // ----- Links under overlapping requests -----

  /** What a flight holds of its certification is what no call ever edits. */
  predicate FlightKnows(w: World, f: Flight) {
    && (f.Landed? || f.id < |w.certifications|)
    && (f.Numbering? || f.Deciding? ==> SameTerms(f.cert, w.certifications[f.id]))
    && (f.Superseding? || f.Drafting? ==> f.terms == w.certifications[f.id].terms)
  }

  predicate FlightsKnow(sw: SplitWorld) {
    forall f | 0 <= f < |sw.flights| :: FlightKnows(sw.world, sw.flights[f])
  }

  lemma WholeKeepsKnowing(sw: SplitWorld, c: Call)
    requires FlightsKnow(sw)
    ensures FlightsKnow(NextSplit(sw, Whole(c)))
  {
    forall f | 0 <= f < |sw.flights|
      ensures FlightKnows(Step(sw.world, c), sw.flights[f])
    {
      assert FlightKnows(sw.world, sw.flights[f]);
      if !sw.flights[f].Landed? {
        TermsStay(sw.world, c, sw.flights[f].id);
      }
    }
  }

  lemma ProceedKeepsKnowing(sw: SplitWorld, f: nat)
    requires FlightsKnow(sw) && f < |sw.flights|
    ensures FlightsKnow(Proceeded(sw, f))
  {
    var sw' := Proceeded(sw, f);
    assert FlightKnows(sw.world, sw.flights[f]);
    forall g | 0 <= g < |sw'.flights|
      ensures FlightKnows(sw'.world, sw'.flights[g])
    {
      assert FlightKnows(sw.world, sw.flights[g]);
    }
  }

  lemma {:induction false} FlightsAlwaysKnow(worlds: seq<SplitWorld>, steps: seq<SplitStep>, i: nat)
    requires SplitTrace(worlds, steps) && i <= |steps|
    ensures FlightsKnow(worlds[i])
  {
    if i > 0 {
      assert SplitLinked(worlds, steps, i - 1);
      FlightsAlwaysKnow(worlds, steps, i - 1);
      match steps[i - 1]
      case Whole(c) => WholeKeepsKnowing(worlds[i - 1], c);
      case Begin(c) =>
      case Proceed(f) =>
        if f < |worlds[i - 1].flights| {
          ProceedKeepsKnowing(worlds[i - 1], f);
        }
      case Look(_) =>
      case Store(_, _, _) =>
    }
  }

  /** A commit keeps the links exactly when it writes RENEWED or nothing has renewed the certification. */
  lemma CommitKeepsLinksIff(worlds: seq<SplitWorld>, steps: seq<SplitStep>, k: nat, f: nat)
    requires SplitTrace(worlds, steps) && k <= |steps| && LinksSound(worlds[k].world.certifications)
    requires f < |worlds[k].flights| && worlds[k].flights[f].Deciding?
    ensures var sw := worlds[k];
            LinksSound(Proceeded(sw, f).world.certifications) <==>
            EdgeOf(sw.flights[f].event).to == Renewed ||
            forall i :: !Renews(sw.world.certifications, i, sw.flights[f].id)
  {
    var sw := worlds[k];
    FlightsAlwaysKnow(worlds, steps, k);
    assert FlightKnows(sw.world, sw.flights[f]);
    var id, old_, new_ := sw.flights[f].id, sw.world.certifications, Proceeded(sw, f).world.certifications;
    assert forall i | 0 <= i < |old_| ::
      new_[i].renewedFromId == old_[i].renewedFromId && new_[i].terms == old_[i].terms;
    if i: Id :| Renews(old_, i, id) {
      assert new_[i].renewedFromId == Some(id);
    } else {
      forall i | 0 <= i < |new_| && new_[i].renewedFromId.Some?
        ensures new_[i].renewedFromId.value != id
      {
        assert !Renews(old_, i, id);
      }
    }
  }

  /** A renewal's draft keeps them exactly when the certification is still RENEWED and no other draft renews it. */
  lemma DraftKeepsLinksIff(worlds: seq<SplitWorld>, steps: seq<SplitStep>, k: nat, f: nat)
    requires SplitTrace(worlds, steps) && k <= |steps| && LinksSound(worlds[k].world.certifications)
    requires f < |worlds[k].flights| && worlds[k].flights[f].Drafting?
    ensures var sw := worlds[k];
            LinksSound(Proceeded(sw, f).world.certifications) <==>
            StandsAt(sw.world, sw.flights[f].id, Renewed) &&
            forall i :: !Renews(sw.world.certifications, i, sw.flights[f].id)
  {
    var sw := worlds[k];
    FlightsAlwaysKnow(worlds, steps, k);
    assert FlightKnows(sw.world, sw.flights[f]);
    var id, old_, new_ := sw.flights[f].id, sw.world.certifications, Proceeded(sw, f).world.certifications;
    var draft := new_[|old_|];
    assert new_ == old_ + [draft] && draft.renewedFromId == Some(id);
    if i: Id :| Renews(old_, i, id) {
      assert new_[i].renewedFromId == draft.renewedFromId && i != |old_|;
    } else if old_[id].currentStatus == Renewed {
      LinkedDraftKeepsSound(old_, draft, id);
    } else {
      assert new_[id].currentStatus != Renewed;
    }
  }
}

/** Revocation against scans in runs where no grants overlap: immediate once the evict step is done. */
module Revocation {
  import opened Text
  import opened Lifecycle
  import opened Registry
  import opened Changes
  import opened Decisions
  import opened QrActivity
  import opened Staleness
  import opened SplitCalls
  import opened Silence
  import opened Revival

  // ----- The atomic call -----

  /**
   * Immediately after a revocation a signature of the certification still verifies exactly when a live valid answer
   * was cached for it while it was no longer the active code: only the active code's entry is evicted.
   */
  lemma StaleAfterRevokeIff(w: World, id: Id, reason: string, actor: Actor, s: Signature)
    requires OneActive(w.qrCodes) && Guard(w, id, Granted).None? && s.certificationId == id
    ensures Answer(RevokeCertification(w, id, reason, actor).world, s).valid <==>
            Live(w, s) && w.cache[s].answer.valid && !ActiveFor(w.qrCodes, id, s)
  {
    var w' := RevokeCertification(w, id, reason, actor).world;
    RevokedTables(w, id, reason, actor);
    ValidLookup(w', s);
    var found := FindActive(w.qrCodes, id);
    assert w'.now == w.now && w'.cache == if found.Some? then w.cache - {found.value} else w.cache;
    if ActiveFor(w.qrCodes, id, s) {
      ActiveIsUnique(w.qrCodes, id, s);
    } else {
      assert found != Some(s);
    }
  }

  // ----- Revocations split at their awaits, all other calls whole -----

  /** No inspection and no direct regeneration; only revocations are split. */
  predicate RevocationOnly(step: SplitStep) {
    match step
    case Whole(c) => !IsInspection(c) && !c.Generating?
    case Begin(c) => c.Revoking?
    case Proceed(_) => true
    case Look(_) => false
    case Store(_, _, _) => false
  }

  predicate RevocationsOnly(steps: seq<SplitStep>) {
    forall i | 0 <= i < |steps| :: RevocationOnly(steps[i])
  }

  predicate Evicts(sw: SplitWorld, id: Id) {
    exists f | 0 <= f < |sw.flights| :: sw.flights[f] == Evicting(id)
  }

  predicate WasGranted(w: World, id: Id) {
    StandsAt(w, id, Granted) || StandsAt(w, id, Revoked) || StandsAt(w, id, Renewed)
  }

  /** Flights are revocations: of a certification that was granted, and past the commit of one that is REVOKED. */
  predicate FlightCalm(w: World, f: Flight) {
    match f
    case Deciding(id, cert, event, _, _) =>
      && event == CertificateRevoked && WasGranted(w, id)
      && cert.grant == w.certifications[id].grant && FieldsAgree(cert.(currentStatus := Revoked))
    case Evicting(id) => StandsAt(w, id, Revoked)
    case Deactivating(id) => StandsAt(w, id, Revoked)
    case Landed => true
    case _ => false
  }

  ghost predicate CodesKnown(w: World) {
    && (forall s | s in w.qrCodes :: IsGrantCode(w, s))
    && (forall s | s in w.cache :: IsGrantCode(w, s))
  }

  /** A valid cached answer is the active code's, and its certification GRANTED or about to be evicted. */
  ghost predicate CacheCalm(sw: SplitWorld) {
    forall s | s in sw.world.cache && sw.world.cache[s].answer.valid ::
      && ActiveFor(sw.world.qrCodes, s.certificationId, s)
      && (StandsAt(sw.world, s.certificationId, Granted) || Evicts(sw, s.certificationId))
  }

  /** After the eviction nothing valid is cached. */
  ghost predicate EvictedCalm(sw: SplitWorld) {
    forall f, s | 0 <= f < |sw.flights| && s in sw.world.cache && sw.flights[f] == Deactivating(s.certificationId) ::
      !sw.world.cache[s].answer.valid
  }

  ghost predicate Calm(sw: SplitWorld) {
    && AllFieldsAgree(sw.world) && sw.scans == []
    && (forall f | 0 <= f < |sw.flights| :: FlightCalm(sw.world, sw.flights[f]))
    && CodesKnown(sw.world) && CacheCalm(sw) && EvictedCalm(sw)
  }

  /** Once granted, a certification keeps its grant and leaves GRANTED only by revocation or renewal. */
  lemma ChangeKeepsGranted(d: Change, w: World, w': World, id: Id)
    requires AllFieldsAgree(w) && Applies(d, w, w') && !d.Overwritten? && WasGranted(w, id)
    ensures WasGranted(w', id) && w'.certifications[id].grant == w.certifications[id].grant
    ensures StandsAt(w, id, Revoked) ==> StandsAt(w', id, Revoked)
    ensures StandsAt(w', id, Granted) ==> StandsAt(w, id, Granted)
  {
  }

  lemma GrantCodeStays(w: World, c: Call, s: Signature)
    requires AllFieldsAgree(w) && !IsInspection(c) && IsGrantCode(w, s)
    ensures IsGrantCode(Step(w, c), s)
  {
    var d := ChangeOf(w, c);
    ChangeKeepsGranted(d, w, Step(w, c), s.certificationId);
  }

  lemma WholeKeepsKnown(w: World, c: Call)
    requires AllFieldsAgree(w) && CodesKnown(w) && !IsInspection(c) && !c.Generating?
    ensures CodesKnown(Step(w, c))
  {
    var w' := Step(w, c);
    forall s | s in w'.qrCodes
      ensures IsGrantCode(w', s)
    {
      if s in w.qrCodes {
        GrantCodeStays(w, c, s);
      } else {
        NewCodeIsGrants(w, c, s);
      }
    }
    forall s | s in w'.cache
      ensures IsGrantCode(w', s)
    {
      CacheAfter(w, c, s);
      GrantCodeStays(w, c, s);
    }
  }

  /** Only a grant issues a code that was not there. */
  lemma NewCodeIsGrants(w: World, c: Call, s: Signature)
    requires s in Step(w, c).qrCodes && s !in w.qrCodes && !c.Generating?
    ensures c.Granting? && StandsAt(w, c.id, UnderReview) && IsGrantCode(Step(w, c), s)
  {
    if c.Granting? && StandsAt(w, c.id, UnderReview) {
      GrantedTables(w, c.id, c.validFrom, c.validUntil, c.year, c.actor);
    } else if c.Revoking? && StandsAt(w, c.id, Granted) {
      RevokedTables(w, c.id, c.reason, c.actor);
    } else if !c.Granting? && !c.Revoking? && !c.Verifying? {
      CodesUntouched(w, c);
    }
  }

  /** findOne finds the grant code while it is active: there is no other. */
  lemma GrantCodeIsFound(w: World, s: Signature)
    requires CodesKnown(w) && ActiveFor(w.qrCodes, s.certificationId, s)
    ensures FindActive(w.qrCodes, s.certificationId) == Some(s)
  {
    var r := FindActive(w.qrCodes, s.certificationId);
    assert IsGrantCode(w, r.value) && IsGrantCode(w, s);
  }

  /** A valid answer that a whole call leaves in the cache is of an active code of a GRANTED certification. */
  lemma WholeKeepsValid(sw: SplitWorld, c: Call, s: Signature)
    requires Calm(sw) && !IsInspection(c) && !c.Generating?
    requires s in Step(sw.world, c).cache && Step(sw.world, c).cache[s].answer.valid
    ensures ActiveFor(Step(sw.world, c).qrCodes, s.certificationId, s)
    ensures StandsAt(Step(sw.world, c), s.certificationId, Granted) || Evicts(sw, s.certificationId)
    ensures (s in sw.world.cache && sw.world.cache[s].answer.valid) || StandsAt(sw.world, s.certificationId, Granted)
  {
    var w, w', id := sw.world, Step(sw.world, c), s.certificationId;
    CacheAfter(w, c, s);
    ValidLookup(w, s);
    assert ActiveFor(w.qrCodes, id, s);
    GrantCodeIsFound(w, s);
    if (c.Revoking? || c.Renewing?) && c.id == id && StandsAt(w, id, Granted) {
      EndingEvicts(w, c, s);
    } else {
      KeepsActive(w, c, s);
      if StandsAt(w, id, Granted) && !StandsAt(w', id, Granted) {
        LeavesGranted(w, c, id);
      }
    }
  }

  lemma EndingEvicts(w: World, c: Call, s: Signature)
    requires (c.Revoking? || c.Renewing?) && c.id == s.certificationId && StandsAt(w, c.id, Granted)
    requires FindActive(w.qrCodes, c.id) == Some(s)
    ensures s !in Step(w, c).cache
  {
    if c.Revoking? {
      assert RevokeTransition(w, c.id, c.reason, c.actor).qrCodes == w.qrCodes;
    } else {
      assert Transition(w, c.id, w.certifications[c.id], CertificateRenewed, c.actor, NoPayload).qrCodes == w.qrCodes;
    }
  }

  /** Codes of a certification that was granted go inactive only when it is revoked. */
  lemma KeepsActive(w: World, c: Call, s: Signature)
    requires ActiveFor(w.qrCodes, s.certificationId, s) && !c.Generating? && WasGranted(w, s.certificationId)
    requires !(c.Revoking? && c.id == s.certificationId && StandsAt(w, c.id, Granted))
    ensures ActiveFor(Step(w, c).qrCodes, s.certificationId, s)
  {
    if c.Granting? && StandsAt(w, c.id, UnderReview) {
      var t := GrantTransition(w, c.id, c.validFrom, c.validUntil, c.year, c.actor);
      assert t.qrCodes == w.qrCodes && t.now == w.now;
    } else if c.Revoking? && StandsAt(w, c.id, Granted) {
      RevokedTables(w, c.id, c.reason, c.actor);
    } else if !c.Granting? && !c.Revoking? && !c.Verifying? {
      CodesUntouched(w, c);
    }
  }

  /** A certification leaves GRANTED only in the two calls that evict. */
  lemma LeavesGranted(w: World, c: Call, id: Id)
    requires !IsInspection(c) && StandsAt(w, id, Granted) && !StandsAt(Step(w, c), id, Granted)
    ensures (c.Revoking? || c.Renewing?) && c.id == id
  {
    var d := ChangeOf(w, c);
  }

  lemma WholeKeepsFlights(sw: SplitWorld, c: Call, f: nat)
    requires Calm(sw) && !IsInspection(c) && f < |sw.flights|
    ensures FlightCalm(Step(sw.world, c), sw.flights[f])
  {
    assert FlightCalm(sw.world, sw.flights[f]);
    if !sw.flights[f].Landed? {
      var d := ChangeOf(sw.world, c);
      ChangeKeepsGranted(d, sw.world, Step(sw.world, c), sw.flights[f].id);
    }
  }

  lemma WholeKeepsCalm(sw: SplitWorld, c: Call)
    requires Calm(sw) && !IsInspection(c) && !c.Generating?
    ensures Calm(NextSplit(sw, Whole(c)))
  {
    var sw' := NextSplit(sw, Whole(c));
    StepKeepsFields(sw.world, c);
    WholeKeepsKnown(sw.world, c);
    forall f | 0 <= f < |sw.flights|
      ensures FlightCalm(sw'.world, sw.flights[f])
    {
      WholeKeepsFlights(sw, c, f);
    }
    forall s | s in sw'.world.cache && sw'.world.cache[s].answer.valid
      ensures ActiveFor(sw'.world.qrCodes, s.certificationId, s)
      ensures StandsAt(sw'.world, s.certificationId, Granted) || Evicts(sw', s.certificationId)
      ensures forall f | 0 <= f < |sw'.flights| :: sw'.flights[f] != Deactivating(s.certificationId)
    {
      WholeKeepsValid(sw, c, s);
      assert Evicts(sw', s.certificationId) == Evicts(sw, s.certificationId);
      forall f | 0 <= f < |sw.flights|
        ensures sw.flights[f] != Deactivating(s.certificationId)
      {
        assert FlightCalm(sw.world, sw.flights[f]);
      }
    }
  }

  lemma BeginKeepsCalm(sw: SplitWorld, c: Call)
    requires Calm(sw) && c.Revoking?
    ensures Calm(NextSplit(sw, Begin(c)))
  {
    var sw' := NextSplit(sw, Begin(c));
    if StandsAt(sw.world, c.id, Granted) {
      assert FieldsAgree(sw.world.certifications[c.id]);
      forall id | Evicts(sw, id)
        ensures Evicts(sw', id)
      {
        var f :| 0 <= f < |sw.flights| && sw.flights[f] == Evicting(id);
        assert sw'.flights[f] == Evicting(id);
      }
    }
  }

  lemma CommitKeepsCalm(sw: SplitWorld, f: nat)
    requires Calm(sw) && f < |sw.flights| && sw.flights[f].Deciding?
    ensures Calm(Proceeded(sw, f))
  {
    var w, sw' := sw.world, Proceeded(sw, f);
    var id := sw.flights[f].id;
    assert FlightCalm(w, sw.flights[f]);
    assert sw'.flights[f] == Evicting(id);
    assert forall s :: IsGrantCode(sw'.world, s) == IsGrantCode(w, s);
    forall other | Evicts(sw, other)
      ensures Evicts(sw', other)
    {
      var g :| 0 <= g < |sw.flights| && sw.flights[g] == Evicting(other);
      assert sw'.flights[g] == Evicting(other);
    }
    forall g | 0 <= g < |sw'.flights|
      ensures FlightCalm(sw'.world, sw'.flights[g])
    {
      assert FlightCalm(w, sw.flights[g]);
    }
  }

  /** At the evict step the entry that goes is the only valid one. */
  lemma EvictClears(sw: SplitWorld, f: nat, s: Signature)
    requires Calm(sw) && f < |sw.flights| && sw.flights[f] == Evicting(s.certificationId)
    requires s in Proceeded(sw, f).world.cache
    ensures !Proceeded(sw, f).world.cache[s].answer.valid
  {
    if sw.world.cache[s].answer.valid {
      GrantCodeIsFound(sw.world, s);
    }
  }

  lemma EvictKeepsCalm(sw: SplitWorld, f: nat)
    requires Calm(sw) && f < |sw.flights| && sw.flights[f].Evicting?
    ensures Calm(Proceeded(sw, f))
  {
    var sw' := Proceeded(sw, f);
    var id := sw.flights[f].id;
    assert FlightCalm(sw.world, sw.flights[f]);
    assert sw'.flights == sw.flights[f := Deactivating(id)];
    assert forall s :: IsGrantCode(sw'.world, s) == IsGrantCode(sw.world, s);
    forall g | 0 <= g < |sw'.flights|
      ensures FlightCalm(sw'.world, sw'.flights[g])
    {
      assert FlightCalm(sw.world, sw.flights[g]);
    }
    forall s | s in sw'.world.cache && s.certificationId == id
      ensures !sw'.world.cache[s].answer.valid
    {
      EvictClears(sw, f, s);
    }
    forall other | Evicts(sw, other) && other != id
      ensures Evicts(sw', other)
    {
      var g :| 0 <= g < |sw.flights| && sw.flights[g] == Evicting(other);
      assert sw'.flights[g] == Evicting(other);
    }
  }

  lemma DeactivateKeepsCalm(sw: SplitWorld, f: nat)
    requires Calm(sw) && f < |sw.flights| && sw.flights[f].Deactivating?
    ensures Calm(Proceeded(sw, f))
  {
    var sw' := Proceeded(sw, f);
    var id := sw.flights[f].id;
    assert sw'.flights == sw.flights[f := Landed];
    assert forall s :: IsGrantCode(sw'.world, s) == IsGrantCode(sw.world, s);
    assert sw'.world.qrCodes.Keys == sw.world.qrCodes.Keys;
    forall g | 0 <= g < |sw'.flights|
      ensures FlightCalm(sw'.world, sw'.flights[g])
    {
      assert FlightCalm(sw.world, sw.flights[g]);
    }
    forall other | Evicts(sw, other)
      ensures Evicts(sw', other)
    {
      var g :| 0 <= g < |sw.flights| && sw.flights[g] == Evicting(other);
      assert sw'.flights[g] == Evicting(other);
    }
  }

  lemma {:induction false} AlwaysCalm(worlds: seq<SplitWorld>, steps: seq<SplitStep>, i: nat)
    requires SplitTrace(worlds, steps) && RevocationsOnly(steps) && i <= |steps|
    ensures Calm(worlds[i])
  {
    if i > 0 {
      assert SplitLinked(worlds, steps, i - 1);
      AlwaysCalm(worlds, steps, i - 1);
      var sw := worlds[i - 1];
      assert RevocationOnly(steps[i - 1]);
      match steps[i - 1]
      case Whole(c) => WholeKeepsCalm(sw, c);
      case Begin(c) => BeginKeepsCalm(sw, c);
      case Proceed(f) =>
        if f < |sw.flights| {
          assert FlightCalm(sw.world, sw.flights[f]);
          match sw.flights[f]
          case Deciding(_, _, _, _, _) => CommitKeepsCalm(sw, f);
          case Evicting(_) => EvictKeepsCalm(sw, f);
          case Deactivating(_) => DeactivateKeepsCalm(sw, f);
          case Landed =>
        }
    }
  }

  /** In those runs nothing at the evict step can bring the certification back. */
  lemma NothingRevives(sw: SplitWorld, f: nat, id: Id)
    requires Calm(sw) && f < |sw.flights| && sw.flights[f] == Evicting(id)
    ensures id < |sw.world.certifications|
    ensures !ValidScanInFlight(sw, id) && !OtherAnswerCached(sw.world, id) && !LookupMayTurnValid(sw, id)
  {
    assert FlightCalm(sw.world, sw.flights[f]);
    forall s: Signature | s.certificationId == id && Live(sw.world, s) && sw.world.cache[s].answer.valid
      ensures FindActive(sw.world.qrCodes, id) == Some(s)
    {
      GrantCodeIsFound(sw.world, s);
    }
    forall g | 0 <= g < |sw.flights|
      ensures !Climbs(sw.flights[g], id) && !Grants(sw.flights[g], id)
    {
      assert FlightCalm(sw.world, sw.flights[g]);
    }
  }

  /**
   * With no direct regeneration and revocations alone split: from the evict step on, no signature of the certification
   * ever verifies again - whatever CertificationService steps follow, overlapping in any way.
   */
  lemma DeadFromEviction(worlds: seq<SplitWorld>, steps: seq<SplitStep>, k: nat, f: nat, id: Id)
    requires SplitTrace(worlds, steps) && RevocationsOnly(steps) && k < |steps| && steps[k] == Proceed(f)
    requires f < |worlds[k].flights| && worlds[k].flights[f] == Evicting(id)
    ensures !VerifiesAgain(worlds[k + 1], id)
  {
    AlwaysCalm(worlds, steps, k);
    NothingRevives(worlds[k], f, id);
    DeadFromEvictionIff(worlds, steps, k, f, id);
  }

  // ----- Runs of atomic calls -----

  /**
   * Without direct regeneration staleness never hides a change of status: in runs of atomic CertificationService calls
   * whatever verifies belongs to a certification that is GRANTED at that very moment.
   */
  lemma ValidMeansGrantedNow(worlds: seq<World>, calls: seq<Call>, i: nat, s: Signature)
    requires Trace(worlds, calls) && LedgerOnly(calls) && NoRegeneration(calls) && i <= |calls|
    requires Answer(worlds[i], s).valid
    ensures StandsAt(worlds[i], s.certificationId, Granted)
  {
    var split, steps := AtomicRunIsSplit(worlds, calls);
    AlwaysCalm(split, steps, i);
    ValidLookup(worlds[i], s);
  }
}

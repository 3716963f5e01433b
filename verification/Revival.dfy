/**
 * Exactly which certifications can still verify, in every state that overlapping calls can lead to, and exactly when a
 * valid answer can come late.
 */
module Revival {
  import opened Text
  import opened Lifecycle
  import opened CertificateNumber
  import opened Registry
  import opened Changes
  import opened Ledger
  import opened Decisions
  import opened QrActivity
  import opened Staleness
  import opened SplitCalls
  import opened Silence

  // ----- What holds of every state that can be reached -----

  /** Nothing is dated in the future, and flights are about certifications that exist. */
  ghost predicate Settled(sw: SplitWorld) {
    var w := sw.world;
    && (forall s | s in w.qrCodes :: s.issuedAt <= w.now)
    && (forall s | s in w.cache :: w.cache[s].storedAt <= w.now)
    && (forall k | 0 <= k < |sw.scans| :: sw.scans[k].readAt <= w.now)
    && (forall f | 0 <= f < |sw.flights| :: sw.flights[f].Landed? || sw.flights[f].id < |w.certifications|)
  }

  lemma CodesNotFuture(w: World, c: Call)
    requires forall s | s in w.qrCodes :: s.issuedAt <= w.now
    ensures forall s | s in Step(w, c).qrCodes :: s.issuedAt <= w.now
  {
    if c.Granting? && StandsAt(w, c.id, UnderReview) {
      var t := GrantTransition(w, c.id, c.validFrom, c.validUntil, c.year, c.actor);
      assert t.qrCodes == w.qrCodes && t.now == w.now;
    } else if c.Revoking? && StandsAt(w, c.id, Granted) {
      RevokedTables(w, c.id, c.reason, c.actor);
    } else if !c.Granting? && !c.Generating? && !c.Revoking? && !c.Verifying? {
      CodesUntouched(w, c);
    }
  }

  lemma WholeKeepsSettled(sw: SplitWorld, c: Call)
    requires Settled(sw)
    ensures Settled(NextSplit(sw, Whole(c)))
  {
    var w' := Step(sw.world, c);
    ClockAdvances(sw.world, c);
    LedgerGrows(sw.world, c);
    CodesNotFuture(sw.world, c);
    forall s | s in w'.cache
      ensures w'.cache[s].storedAt <= w'.now
    {
      CacheAfter(sw.world, c, s);
    }
  }

  lemma ProceedKeepsSettled(sw: SplitWorld, f: nat)
    requires Settled(sw) && f < |sw.flights|
    ensures Settled(Proceeded(sw, f))
  {
    ProceedingKeepsScans(sw, f);
    assert sw.flights[f].Landed? || sw.flights[f].id < |sw.world.certifications|;
  }

  lemma StepKeepsSettled(sw: SplitWorld, step: SplitStep)
    requires Settled(sw)
    ensures Settled(NextSplit(sw, step))
  {
    match step
    case Whole(c) => WholeKeepsSettled(sw, c);
    case Begin(c) =>
      if Begun(sw.world, c).Some? {
        BegunHolds(sw.world, c);
      }
    case Proceed(f) =>
      if f < |sw.flights| {
        ProceedKeepsSettled(sw, f);
      }
    case Look(_) =>
    case Store(_, _, _) =>
  }

  lemma {:induction false} AlwaysSettled(worlds: seq<SplitWorld>, steps: seq<SplitStep>, i: nat)
    requires SplitTrace(worlds, steps) && i <= |steps|
    ensures Settled(worlds[i])
  {
    if i > 0 {
      assert SplitLinked(worlds, steps, i - 1);
      AlwaysSettled(worlds, steps, i - 1);
      StepKeepsSettled(worlds[i - 1], steps[i - 1]);
    }
  }

  // ----- Every way back leads somewhere -----

  /** A continuation that stores no scan and at whose end, at t or later, the tables answer valid for s. */
  ghost predicate LeadsTo(sw: SplitWorld, more: seq<SplitStep>, id: Id, s: Signature, t: Time) {
    && AllGuarded(more)
    && (forall i | 0 <= i < |more| :: !more[i].Store?)
    && Run(sw, more).world.now >= t
    && s.certificationId == id && Lookup(Run(sw, more).world, s).valid
  }

  ghost predicate Reaches(sw: SplitWorld, id: Id, t: Time) {
    exists more, s :: LeadsTo(sw, more, id, s, t)
  }

  lemma After(sw: SplitWorld, step: SplitStep, id: Id, t: Time)
    requires Guarded(step) && !step.Store? && Reaches(NextSplit(sw, step), id, t)
    ensures Reaches(sw, id, t)
  {
    var more, s :| LeadsTo(NextSplit(sw, step), more, id, s, t);
    assert ([step] + more)[1..] == more;
    assert LeadsTo(sw, [step] + more, id, s, t);
  }

  lemma Now(sw: SplitWorld, s: Signature, t: Time)
    requires sw.world.now >= t && Lookup(sw.world, s).valid
    ensures Reaches(sw, s.certificationId, t)
  {
    assert Run(sw, []) == sw;
    assert LeadsTo(sw, [], s.certificationId, s, t);
  }

  /** The clock moved on to t. */
  function At(t: Time, w: World): SplitStep
    requires w.now <= t
  {
    Whole(Tick(t - w.now))
  }

  lemma GrantedWithCode(sw: SplitWorld, id: Id, t: Time)
    requires StandsAt(sw.world, id, Granted) && CodeLasts(sw.world, id, t) && sw.world.now <= t
    ensures Reaches(sw, id, t)
  {
    var s :| ActiveFor(sw.world.qrCodes, id, s) && Lasts(sw.world.qrCodes[s].expiresAt, t);
    var sw' := NextSplit(sw, At(t, sw.world));
    ValidLookup(sw'.world, s);
    Now(sw', s, t);
    After(sw, At(t, sw.world), id, t);
  }

  /** A code issued at t from the row lasts as long as the row's validity. */
  lemma IssueAt(w: World, id: Id, t: Time)
    requires id < |w.certifications| && RowLasts(w, id, t) && w.now == t && Issuable(w, id)
    ensures CodeLasts(GenerateQrCode(w, id).world, id, t)
  {
    var w' := GenerateQrCode(w, id).world;
    assert ActiveFor(w'.qrCodes, id, Signature(id, t)) && Lasts(w'.qrCodes[Signature(id, t)].expiresAt, t);
  }

  /** At t, or right now, a code can still be issued. */
  ghost predicate IssuableAt(sw: SplitWorld, id: Id, t: Time) {
    sw.world.now < t || (sw.world.now == t && Issuable(sw.world, id))
  }

  /** The state at t with a new code from the row. */
  lemma IssuedAt(sw: SplitWorld, id: Id, t: Time) returns (issued: SplitWorld)
    requires Settled(sw) && id < |sw.world.certifications| && RowLasts(sw.world, id, t) && IssuableAt(sw, id, t)
    ensures issued == NextSplit(NextSplit(sw, At(t, sw.world)), Whole(Generating(id)))
    ensures Settled(issued) && CodeLasts(issued.world, id, t) && issued.world.now == t
    ensures issued.flights == sw.flights && issued.world.certifications == sw.world.certifications
  {
    var there := NextSplit(sw, At(t, sw.world));
    StepKeepsSettled(sw, At(t, sw.world));
    IssueAt(there.world, id, t);
    StepKeepsSettled(there, Whole(Generating(id)));
    issued := NextSplit(there, Whole(Generating(id)));
  }

  lemma IssuedLeads(sw: SplitWorld, id: Id, t: Time)
    requires sw.world.now <= t
    requires Reaches(NextSplit(NextSplit(sw, At(t, sw.world)), Whole(Generating(id))), id, t)
    ensures Reaches(sw, id, t)
  {
    After(NextSplit(sw, At(t, sw.world)), Whole(Generating(id)), id, t);
    After(sw, At(t, sw.world), id, t);
  }

  lemma GrantedWithRow(sw: SplitWorld, id: Id, t: Time)
    requires Settled(sw) && StandsAt(sw.world, id, Granted) && RowLasts(sw.world, id, t) && IssuableAt(sw, id, t)
    ensures Reaches(sw, id, t)
  {
    var issued := IssuedAt(sw, id, t);
    GrantedWithCode(issued, id, t);
    IssuedLeads(sw, id, t);
  }

  lemma DecidedWithCode(sw: SplitWorld, id: Id, f: nat, t: Time)
    requires Settled(sw) && sw.world.now <= t && CodeLasts(sw.world, id, t)
    requires f < |sw.flights| && Grants(sw.flights[f], id) && sw.flights[f].Deciding?
    ensures Reaches(sw, id, t)
  {
    var sw' := NextSplit(sw, Proceed(f));
    assert sw'.world.qrCodes == sw.world.qrCodes;
    GrantedWithCode(sw', id, t);
    After(sw, Proceed(f), id, t);
  }

  /** A grant in flight commits while a code lasts. */
  lemma GrantWithCode(sw: SplitWorld, id: Id, f: nat, t: Time)
    requires Settled(sw) && sw.world.now <= t && CodeLasts(sw.world, id, t)
    requires f < |sw.flights| && Grants(sw.flights[f], id)
    ensures Reaches(sw, id, t)
  {
    if sw.flights[f].Numbering? {
      var sw' := NextSplit(sw, Proceed(f));
      assert sw'.world.qrCodes == sw.world.qrCodes;
      StepKeepsSettled(sw, Proceed(f));
      DecidedWithCode(sw', id, f, t);
      After(sw, Proceed(f), id, t);
    } else {
      DecidedWithCode(sw, id, f, t);
    }
  }

  /** A code is issued from a validity that lasts, and then a grant in flight commits. */
  lemma GrantWithRow(sw: SplitWorld, id: Id, f: nat, t: Time)
    requires Settled(sw) && IssuableAt(sw, id, t) && id < |sw.world.certifications| && RowLasts(sw.world, id, t)
    requires f < |sw.flights| && Grants(sw.flights[f], id)
    ensures Reaches(sw, id, t)
  {
    var issued := IssuedAt(sw, id, t);
    GrantWithCode(issued, id, f, t);
    IssuedLeads(sw, id, t);
  }

  lemma DecidedWithOwn(sw: SplitWorld, id: Id, f: nat, t: Time)
    requires Settled(sw) && IssuableAt(sw, id, t)
    requires f < |sw.flights| && Grants(sw.flights[f], id) && sw.flights[f].Deciding?
    requires Lasts(PendingExpiry(sw.flights[f]), t)
    ensures Reaches(sw, id, t)
  {
    StepKeepsSettled(sw, Proceed(f));
    GrantedWithRow(NextSplit(sw, Proceed(f)), id, t);
    After(sw, Proceed(f), id, t);
  }

  /** A pending transition whose entity carries a validity that lasts commits first. */
  lemma GrantWithPending(sw: SplitWorld, id: Id, f: nat, g: nat, t: Time)
    requires Settled(sw) && IssuableAt(sw, id, t)
    requires f < |sw.flights| && Grants(sw.flights[f], id)
    requires g < |sw.flights| && IsPending(sw.flights[g], id) && Lasts(PendingExpiry(sw.flights[g]), t)
    ensures Reaches(sw, id, t)
  {
    var sw' := NextSplit(sw, Proceed(g));
    StepKeepsSettled(sw, Proceed(g));
    if sw.flights[g].Numbering? {
      DecidedWithOwn(sw', id, g, t);
      After(sw, Proceed(g), id, t);
    } else if Grants(sw.flights[g], id) {
      DecidedWithOwn(sw, id, g, t);
    } else {
      GrantWithRow(sw', id, f, t);
      After(sw, Proceed(g), id, t);
    }
  }

  // ----- From any climbable status to a grant -----

  function Longest(ledger: seq<LedgerRow>): nat {
    if ledger == [] then 0
    else
      var rest, n := Longest(ledger[..|ledger| - 1]), |ledger[|ledger| - 1].actor.correlationId|;
      if rest < n then n else rest
  }

  lemma {:induction false} LongestIs(ledger: seq<LedgerRow>, i: nat)
    requires i < |ledger|
    ensures |ledger[i].actor.correlationId| <= Longest(ledger)
  {
    if i < |ledger| - 1 {
      LongestIs(ledger[..|ledger| - 1], i);
    }
  }

  /** There is always an event id that the ledger has not seen. */
  lemma FreshEventId(w: World) returns (eventId: string)
    ensures !IsEventProcessed(w, eventId)
  {
    eventId := seq(Longest(w.ledger) + 1, _ => 'x');
    forall i | 0 <= i < |w.ledger|
      ensures w.ledger[i].actor.correlationId != eventId
    {
      LongestIs(w.ledger, i);
    }
  }

  /** A transition call takes the certification where its event leads. */
  lemma CallClimbs(w: World, c: Call, id: Id, event: EventType)
    requires (c.Advanced? && c.id == id && StageEvent(c.stage) == event) ||
             (c.LabTestCompleted? && event == EventType.LabResultsReceived && !IsEventProcessed(w, c.event.eventId) &&
              c.pick == id && AwaitsLab(w.certifications, c.event.batchId, id))
    requires StandsAt(w, id, EdgeOf(event).from)
    ensures StandsAt(Step(w, c), id, EdgeOf(event).to)
  {
  }

  /** The call that takes a certification one status further. */
  lemma NextCall(w: World, id: Id) returns (c: Call)
    requires id < |w.certifications|
    requires Climbable(w.certifications[id].currentStatus) && w.certifications[id].currentStatus != UnderReview
    ensures !IsInspection(c) && id < |Step(w, c).certifications|
    ensures Climbable(Step(w, c).certifications[id].currentStatus)
    ensures Rank(Step(w, c).certifications[id].currentStatus) == Rank(w.certifications[id].currentStatus) + 1
  {
    var actor := Actor("user", "certification-body", "http");
    var status := w.certifications[id].currentStatus;
    if status == LabTesting {
      var eventId := FreshEventId(w);
      c := LabTestCompleted(LabEvent(eventId, w.certifications[id].terms.batchId, "test", true), id);
      CallClimbs(w, c, id, EventType.LabResultsReceived);
    } else {
      var stage := match status
        case Draft => SubmitRequest
        case Submitted => StartReview(None)
        case DocumentReview => ScheduleInspectionChain("inspector", "2026-01-15", [])
        case InspectionScheduled => StartInspection
        case InspectionInProgress => CompleteInspectionChain(true, "ok")
        case InspectionComplete => RequestLab(None, None)
        case LabResultsReceived => StartFinalReview;
      c := Advanced(id, stage, actor);
      CallClimbs(w, c, id, StageEvent(stage));
    }
  }

  /** A grant valid until this very instant, and its code. */
  lemma GrantNow(w: World, id: Id, c: Call)
    requires StandsAt(w, id, UnderReview) && Issuable(w, id)
    requires c.Granting? && c.id == id && c.validUntil == w.now
    ensures StandsAt(Step(w, c), id, Granted) && CodeLasts(Step(w, c), id, w.now) && Step(w, c).now == w.now
  {
    var transition := GrantTransition(w, id, c.validFrom, c.validUntil, c.year, c.actor);
    IssueAt(transition, id, w.now);
  }

  /** Under review a grant made at t or later verifies at once. */
  lemma ReviewReaches(sw: SplitWorld, id: Id, t: Time)
    requires Settled(sw) && StandsAt(sw.world, id, UnderReview)
    ensures Reaches(sw, id, t)
  {
    var wait := Whole(Tick(t + 1));
    var there := NextSplit(sw, wait);
    GrantReaches(there, id);
    Later(there, id, there.world.now, t);
    After(sw, wait, id, t);
  }

  lemma GrantReaches(sw: SplitWorld, id: Id)
    requires StandsAt(sw.world, id, UnderReview) && Issuable(sw.world, id)
    ensures Reaches(sw, id, sw.world.now)
  {
    var now := sw.world.now;
    var grant := Granting(id, now, now, 2026, Actor("user", "certification-body", "http"));
    GrantNow(sw.world, id, grant);
    GrantedWithCode(NextSplit(sw, Whole(grant)), id, now);
    After(sw, Whole(grant), id, now);
  }

  lemma Later(sw: SplitWorld, id: Id, t: Time, u: Time)
    requires Reaches(sw, id, t) && u <= t
    ensures Reaches(sw, id, u)
  {
    var more, s :| LeadsTo(sw, more, id, s, t);
    assert LeadsTo(sw, more, id, s, u);
  }

  lemma {:induction false} ClimbReaches(sw: SplitWorld, id: Id, t: Time)
    requires Settled(sw) && id < |sw.world.certifications|
    requires Climbable(sw.world.certifications[id].currentStatus)
    ensures Reaches(sw, id, t)
    decreases 8 - Rank(sw.world.certifications[id].currentStatus)
  {
    if sw.world.certifications[id].currentStatus == UnderReview {
      ReviewReaches(sw, id, t);
    } else {
      var c := NextCall(sw.world, id);
      StepKeepsSettled(sw, Whole(c));
      ClimbReaches(NextSplit(sw, Whole(c)), id, t);
      After(sw, Whole(c), id, t);
    }
  }

  lemma ClimbInFlightReaches(sw: SplitWorld, id: Id, f: nat, t: Time)
    requires Settled(sw) && f < |sw.flights| && Climbs(sw.flights[f], id)
    ensures Reaches(sw, id, t)
  {
    StepKeepsSettled(sw, Proceed(f));
    ClimbReaches(NextSplit(sw, Proceed(f)), id, t);
    After(sw, Proceed(f), id, t);
  }

  lemma CanVerifyReaches(sw: SplitWorld, id: Id, t: Time, issuable: bool)
    requires Settled(sw) && id < |sw.world.certifications| && CanVerifyAt(sw, id, t, issuable)
    requires sw.world.now <= t && (issuable ==> IssuableAt(sw, id, t))
    ensures Reaches(sw, id, t)
  {
    var w := sw.world;
    if Climbable(w.certifications[id].currentStatus) {
      ClimbReaches(sw, id, t);
    } else if ClimbInFlight(sw, id) {
      var f :| 0 <= f < |sw.flights| && Climbs(sw.flights[f], id);
      ClimbInFlightReaches(sw, id, f, t);
    } else if StandsAt(w, id, Granted) && CodeLasts(w, id, t) {
      GrantedWithCode(sw, id, t);
    } else if StandsAt(w, id, Granted) && issuable && RowLasts(w, id, t) {
      GrantedWithRow(sw, id, t);
    } else {
      var f :| 0 <= f < |sw.flights| && Grants(sw.flights[f], id);
      if CodeLasts(w, id, t) {
        GrantWithCode(sw, id, f, t);
      } else if RowLasts(w, id, t) {
        GrantWithRow(sw, id, f, t);
      } else {
        var g :| 0 <= g < |sw.flights| && IsPending(sw.flights[g], id) && Lasts(PendingExpiry(sw.flights[g]), t);
        GrantWithPending(sw, id, f, g, t);
      }
    }
  }

  // ----- Verifying again -----

  /** Some continuation by CertificationService steps lets a signature of the certification verify. */
  ghost predicate VerifiesAgain(sw: SplitWorld, id: Id) {
    exists more, s :: AllGuarded(more) && VerifiesAfter(sw, more, id, s)
  }

  ghost predicate VerifiesAfter(sw: SplitWorld, more: seq<SplitStep>, id: Id, s: Signature) {
    s.certificationId == id && Answer(Run(sw, more).world, s).valid
  }

  lemma ReachingVerifies(sw: SplitWorld, id: Id, t: Time)
    requires Reaches(sw, id, t)
    ensures VerifiesAgain(sw, id)
  {
    var more, s :| LeadsTo(sw, more, id, s, t);
    var there := Run(sw, more);
    RunConcat(sw, more, [Whole(CacheLoss(s))]);
    RunOne(there, Whole(CacheLoss(s)));
    assert Lookup(NextSplit(there, Whole(CacheLoss(s))).world, s) == Lookup(there.world, s);
    assert VerifiesAfter(sw, more + [Whole(CacheLoss(s))], id, s);
  }

  /** Storing the answer brings it back for another TTL, whatever has happened to the certification. */
  lemma ScanInFlightVerifies(sw: SplitWorld, id: Id)
    requires ValidScanInFlight(sw, id)
    ensures VerifiesAgain(sw, id)
  {
    var k :| 0 <= k < |sw.scans| && !sw.scans[k].landed && sw.scans[k].signature.certificationId == id &&
      sw.scans[k].answer.valid;
    RunOne(sw, Store(k, None, false));
    assert VerifiesAfter(sw, [Store(k, None, false)], id, sw.scans[k].signature);
  }

  /**
   * In any state, however it was reached: some continuation lets the certification verify if and only if a scan that
   * read it as valid is in flight, or a live valid answer is cached, or the tables can come to answer valid.
   */
  lemma SettledVerifiesAgainIff(sw: SplitWorld, id: Id)
    requires Settled(sw) && id < |sw.world.certifications|
    ensures VerifiesAgain(sw, id) <==> MayVerify(sw, id)
  {
    var now := sw.world.now;
    if ValidScanInFlight(sw, id) {
      ScanInFlightVerifies(sw, id);
    } else if ValidAnswerCached(sw.world, id) {
      var s: Signature :| s.certificationId == id && Live(sw.world, s) && sw.world.cache[s].answer.valid;
      assert Run(sw, []) == sw;
      assert VerifiesAfter(sw, [], id, s);
    } else if CanVerifyAt(sw, id, now, Issuable(sw.world, id)) {
      CanVerifyReaches(sw, id, now, Issuable(sw.world, id));
      ReachingVerifies(sw, id, now);
    } else if CanVerifyAt(sw, id, now + 1, true) {
      CanVerifyReaches(sw, id, now + 1, true);
      ReachingVerifies(sw, id, now + 1);
    } else {
      assert Dead(sw, id, now);
      forall more, s | AllGuarded(more)
        ensures !VerifiesAfter(sw, more, id, s)
      {
        DeadRun(sw, more, id, now);
        if s.certificationId == id {
          DeadIsSilent(Run(sw, more), id, now, s);
        }
      }
    }
  }

  lemma VerifiesAgainIff(worlds: seq<SplitWorld>, steps: seq<SplitStep>, k: nat, id: Id)
    requires SplitTrace(worlds, steps) && k <= |steps| && id < |worlds[k].world.certifications|
    ensures VerifiesAgain(worlds[k], id) <==> MayVerify(worlds[k], id)
  {
    AlwaysSettled(worlds, steps, k);
    SettledVerifiesAgainIff(worlds[k], id);
  }

  // ----- At the evict step of a revocation -----

  /** A live valid answer for a code of the certification that is not the one the eviction finds. */
  ghost predicate OtherAnswerCached(w: World, id: Id) {
    exists s: Signature ::
      s.certificationId == id && Live(w, s) && w.cache[s].answer.valid && FindActive(w.qrCodes, id) != Some(s)
  }

  lemma EvictionLeaves(sw: SplitWorld, f: nat, id: Id)
    requires f < |sw.flights| && sw.flights[f] == Evicting(id) && id < |sw.world.certifications|
    ensures var sw' := Proceeded(sw, f);
            && ValidScanInFlight(sw', id) == ValidScanInFlight(sw, id)
            && ValidAnswerCached(sw'.world, id) == OtherAnswerCached(sw.world, id)
  {
    var sw' := Proceeded(sw, f);
    if ValidAnswerCached(sw'.world, id) {
      var s: Signature :| s.certificationId == id && Live(sw'.world, s) && sw'.world.cache[s].answer.valid;
      assert Live(sw.world, s) && FindActive(sw.world.qrCodes, id) != Some(s);
    }
    if OtherAnswerCached(sw.world, id) {
      var s: Signature :| s.certificationId == id && Live(sw.world, s) && sw.world.cache[s].answer.valid &&
        FindActive(sw.world.qrCodes, id) != Some(s);
      assert Live(sw'.world, s) && sw'.world.cache[s].answer.valid;
    }
  }

  lemma EvictionKeepsWays(sw: SplitWorld, f: nat, id: Id)
    requires f < |sw.flights| && sw.flights[f] == Evicting(id) && id < |sw.world.certifications|
    ensures LookupMayTurnValid(Proceeded(sw, f), id) == LookupMayTurnValid(sw, id)
  {
    var sw' := Proceeded(sw, f);
    assert sw'.flights == sw.flights[f := Deactivating(id)];
    assert sw'.world.qrCodes == sw.world.qrCodes && sw'.world.certifications == sw.world.certifications;
    assert forall g | 0 <= g < |sw.flights| && (IsPending(sw.flights[g], id) || IsPending(sw'.flights[g], id)) ::
      sw'.flights[g] == sw.flights[g];
    assert ClimbInFlight(sw', id) == ClimbInFlight(sw, id) && GrantInFlight(sw', id) == GrantInFlight(sw, id);
    assert forall t: Time :: PendingLasts(sw', id, t) == PendingLasts(sw, id, t);
    assert forall t: Time :: CodeLasts(sw'.world, id, t) == CodeLasts(sw.world, id, t);
  }

  /**
   * From the evict step of a revocation on, no continuation whatsoever lets a signature of the certification verify,
   * exactly if at that step no scan that read it as valid is in flight, no other code of it has a live valid answer
   * cached, and the tables cannot come to answer valid.
   */
  lemma DeadFromEvictionIff(worlds: seq<SplitWorld>, steps: seq<SplitStep>, k: nat, f: nat, id: Id)
    requires SplitTrace(worlds, steps) && k < |steps| && steps[k] == Proceed(f)
    requires f < |worlds[k].flights| && worlds[k].flights[f] == Evicting(id)
    ensures id < |worlds[k].world.certifications|
    ensures !VerifiesAgain(worlds[k + 1], id) <==>
            && !ValidScanInFlight(worlds[k], id)
            && !OtherAnswerCached(worlds[k].world, id)
            && !LookupMayTurnValid(worlds[k], id)
  {
    assert SplitLinked(worlds, steps, k);
    AlwaysSettled(worlds, steps, k);
    EvictionLeaves(worlds[k], f, id);
    EvictionKeepsWays(worlds[k], f, id);
    VerifiesAgainIff(worlds, steps, k + 1, id);
  }

  /** The tables can turn valid for a REVOKED certification only through a transition that read it before. */
  lemma RevokedTurnsValidOnlyIf(sw: SplitWorld, id: Id)
    requires StandsAt(sw.world, id, Revoked) && LookupMayTurnValid(sw, id)
    ensures ClimbInFlight(sw, id) || GrantInFlight(sw, id)
  {
  }
}

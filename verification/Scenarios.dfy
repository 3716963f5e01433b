/** Concrete runs that show where a guarantee stops. */
module Scenarios {
  import opened Text
  import opened Lifecycle
  import opened CertificateNumber
  import opened Registry
  import opened Changes
  import opened Staleness
  import opened Revocation
  import opened QrActivity
  import opened SplitCalls
  import opened Revival
  import opened GrantRaces
  import Decisions
  import Renewals
  import LabEvents
  import Ledger

  function Http(): Actor {
    Actor("user", "certification-body", "http")
  }

  function SampleRequest(): RequestDto {
    RequestDto("Tifawin", "batch", "ARGAN_OIL", IGP, "SOUSS_MASSA")
  }

  /** The call that takes a certification from the k-th status of the ladder to the next. */
  function Rung(k: nat): Call
    requires k < 8
  {
    if k == 0 then Advanced(0, SubmitRequest, Http())
    else if k == 1 then Advanced(0, StartReview(None), Http())
    else if k == 2 then Advanced(0, ScheduleInspectionChain("inspector", "2026-01-15", []), Http())
    else if k == 3 then Advanced(0, StartInspection, Http())
    else if k == 4 then Advanced(0, CompleteInspectionChain(true, "ok"), Http())
    else if k == 5 then Advanced(0, RequestLab(None, None), Http())
    else if k == 6 then LabTestCompleted(LabEvent("event", "batch", "test", true), 0)
    else Advanced(0, StartFinalReview, Http())
  }

  ghost function Last(worlds: seq<World>): World
    requires |worlds| > 0
  {
    worlds[|worlds| - 1]
  }

  /** A run made one call longer. */
  lemma Extend(worlds: seq<World>, calls: seq<Call>, c: Call) returns (longer: seq<World>, more: seq<Call>)
    requires Trace(worlds, calls) && LedgerOnly(calls) && !IsInspection(c)
    ensures Trace(longer, more) && LedgerOnly(more) && Last(longer) == Step(Last(worlds), c)
    ensures NoRegeneration(calls) && !c.Generating? ==> NoRegeneration(more)
    ensures more == calls + [c]
  {
    longer, more := worlds + [Step(Last(worlds), c)], calls + [c];
    TraceGrows(worlds, calls, c, Step(Last(worlds), c));
  }

  /** One certification at status s, nothing else in the tables but its ledger. */
  ghost predicate OnlyOne(w: World, s: Status) {
    && |w.certifications| == 1 && w.certifications[0].currentStatus == s
    && w.certifications[0].terms.batchId == "batch"
    && w.qrCodes == map[] && w.cache == map[] && w.now == 0
  }

  ghost predicate AllFromHttp(w: World) {
    forall i | 0 <= i < |w.ledger| :: w.ledger[i].actor.correlationId == "http"
  }

  lemma RungAdvances(w: World, k: nat)
    requires k < 8 && k != 6 && OnlyOne(w, Ladder(k))
    ensures OnlyOne(Step(w, Rung(k)), Ladder(k + 1))
    ensures k < 6 && AllFromHttp(w) ==> AllFromHttp(Step(w, Rung(k)))
  {
    var Advanced(id, stage, actor) := Rung(k);
    assert StageEvent(stage) == GrantChain()[k];
  }

  lemma LabRungAdvances(w: World)
    requires OnlyOne(w, LabTesting) && AllFromHttp(w)
    ensures OnlyOne(Step(w, Rung(6)), Status.LabResultsReceived)
  {
    assert "event"[0] != "http"[0];
    assert AwaitsLab(w.certifications, "batch", 0);
  }

  lemma RungUp(w: World, k: nat)
    requires k < 8 && OnlyOne(w, Ladder(k)) && (k <= 6 ==> AllFromHttp(w))
    ensures OnlyOne(Step(w, Rung(k)), Ladder(k + 1))
    ensures k + 1 <= 6 ==> AllFromHttp(Step(w, Rung(k)))
  {
    if k == 6 {
      LabRungAdvances(w);
    } else {
      RungAdvances(w, k);
    }
  }

  lemma {:induction false} Climb(k: nat) returns (worlds: seq<World>, calls: seq<Call>)
    requires k <= 8
    ensures Trace(worlds, calls) && LedgerOnly(calls) && NoRegeneration(calls) && OnlyOne(Last(worlds), Ladder(k))
    ensures forall i | 0 <= i < |calls| :: !calls[i].Granting?
    ensures k <= 6 ==> AllFromHttp(Last(worlds))
  {
    if k == 0 {
      var c := Request(SampleRequest(), "user");
      worlds, calls := Extend([Blank(0)], [], c);
      FirstRequest();
    } else {
      var w, c := Climb(k - 1);
      RungUp(Last(w), k - 1);
      worlds, calls := Extend(w, c, Rung(k - 1));
    }
  }

  lemma FirstRequest()
    ensures OnlyOne(Step(Blank(0), Request(SampleRequest(), "user")), Draft)
    ensures AllFromHttp(Step(Blank(0), Request(SampleRequest(), "user")))
  {
  }

  /** A certification granted at instant 0, its only code scanned at once. */
  ghost predicate JustScanned(w: World) {
    var s := Signature(0, 0);
    && |w.certifications| == 1 && w.certifications[0].currentStatus == Granted
    && w.qrCodes.Keys == {s} && w.cache.Keys == {s}
    && w.cache[s].answer.valid && w.cache[s].storedAt == w.now == 0
  }

  lemma JustGranted() returns (worlds: seq<World>, calls: seq<Call>)
    ensures Trace(worlds, calls) && LedgerOnly(calls) && NoRegeneration(calls)
    ensures var w := Last(worlds);
            && |w.certifications| == 1 && w.certifications[0].currentStatus == Granted
            && w.qrCodes == map[Signature(0, 0) := QrCode(true, 0, Some(1000))] && w.cache == map[] && w.now == 0
  {
    worlds, calls := Climb(8);
    worlds, calls := Extend(worlds, calls, Granting(0, 0, 1000, 2025, Http()));
  }

  lemma GrantedAndScanned() returns (worlds: seq<World>, calls: seq<Call>)
    ensures Trace(worlds, calls) && LedgerOnly(calls) && JustScanned(Last(worlds))
  {
    worlds, calls := JustGranted();
    worlds, calls := Extend(worlds, calls, Verifying(Signature(0, 0), None, true));
  }

  /** One millisecond later a second code replaces the first; the first one's cached answer stays. */
  lemma Regenerated(w: World)
    requires JustScanned(w)
    ensures var w' := Step(Step(w, Tick(1)), Generating(0));
            && w'.certifications == w.certifications && w'.cache == w.cache && w'.now == 1
            && w'.qrCodes.Keys == {Signature(0, 0), Signature(0, 1)}
            && !w'.qrCodes[Signature(0, 0)].isActive && w'.qrCodes[Signature(0, 1)].isActive
  {
  }

  lemma RevokedButValid(w: World)
    requires |w.certifications| == 1 && w.certifications[0].currentStatus == Granted
    requires w.qrCodes.Keys == {Signature(0, 0), Signature(0, 1)}
    requires !w.qrCodes[Signature(0, 0)].isActive && w.qrCodes[Signature(0, 1)].isActive
    requires Signature(0, 0) in w.cache && w.cache[Signature(0, 0)].answer.valid
    requires w.cache[Signature(0, 0)].storedAt == 0 && w.now == 1
    ensures var w' := Step(w, Revoking(0, "fraud", Http()));
            && |w'.certifications| == 1 && w'.certifications[0].currentStatus == Revoked
            && Answer(w', Signature(0, 0)).valid
  {
    RevokedTables(w, 0, "fraud", Http());
    StaleAfterRevokeIff(w, 0, "fraud", Http(), Signature(0, 0));
  }

  /**
   * Direct regeneration defeats revocation for up to five minutes: a code is granted and scanned, regenerated one
   * millisecond later, the certification is revoked, and the first code still answers valid.
   */
  lemma RegenerationOutlivesRevocation() returns (worlds: seq<World>, calls: seq<Call>)
    ensures Trace(worlds, calls) && LedgerOnly(calls)
    ensures |Last(worlds).certifications| == 1 && Last(worlds).certifications[0].currentStatus == Revoked
    ensures Answer(Last(worlds), Signature(0, 0)).valid
  {
    worlds, calls := GrantedAndScanned();
    Regenerated(Last(worlds));
    worlds, calls := Extend(worlds, calls, Tick(1));
    worlds, calls := Extend(worlds, calls, Generating(0));
    RevokedButValid(Last(worlds));
    worlds, calls := Extend(worlds, calls, Revoking(0, "fraud", Http()));
  }

  // ----- Inspections on decided certifications -----

  function Visit0(): ScheduleDto {
    ScheduleDto(0, "inspector", None, "2026-01-15", [])
  }

  lemma WithInspection(worlds: seq<World>, calls: seq<Call>, dto: ScheduleDto)
    returns (longer: seq<World>, more: seq<Call>)
    requires Trace(worlds, calls)
    ensures Trace(longer, more) && Last(longer) == Step(Last(worlds), Scheduling(dto))
  {
    var c := Scheduling(dto);
    longer, more := worlds + [Step(Last(worlds), c)], calls + [c];
    TraceGrows(worlds, calls, c, Step(Last(worlds), c));
  }

  /** A granted certification is scheduled for inspection: number and grant data stay without their status. */
  lemma InspectionBreaksFields() returns (worlds: seq<World>, calls: seq<Call>)
    ensures Trace(worlds, calls) && !Decisions.AllFieldsAgree(Last(worlds))
  {
    worlds, calls := JustGranted();
    Decisions.FieldsAlwaysAgree(worlds, calls, |calls|);
    Decisions.SchedulingKeepsFieldsIff(Last(worlds), Visit0());
    worlds, calls := WithInspection(worlds, calls, Visit0());
  }

  /** A renewed certification is scheduled for inspection: its successor links to a row that is not RENEWED. */
  lemma InspectionBreaksLinks() returns (worlds: seq<World>, calls: seq<Call>)
    ensures Trace(worlds, calls) && !Renewals.LinksSound(Last(worlds).certifications)
  {
    worlds, calls := JustGranted();
    worlds, calls := Extend(worlds, calls, Renewing(0, Http()));
    var w := Last(worlds);
    assert |w.certifications| == 2 && w.certifications[1].renewedFromId == Some(0);
    worlds, calls := WithInspection(worlds, calls, Visit0());
    var certs := Last(worlds).certifications;
    assert certs[1].renewedFromId == Some(0) && certs[0].currentStatus != Renewed;
  }

  // ----- Overlapping calls -----

  /** A CertificationService step that generates no code other than for a grant. */
  predicate Ordinary(step: SplitStep) {
    Guarded(step) && (step.Whole? ==> !step.call.Generating?)
  }

  /** A state that ordinary steps lead to from an empty database. */
  ghost predicate Reachable(sw: SplitWorld) {
    exists worlds, steps :: LeadsFromEmpty(worlds, steps, sw)
  }

  ghost predicate LeadsFromEmpty(worlds: seq<SplitWorld>, steps: seq<SplitStep>, sw: SplitWorld) {
    && SplitTrace(worlds, steps) && worlds[|steps|] == sw
    && forall i | 0 <= i < |steps| :: Ordinary(steps[i])
  }

  lemma ReachableNext(sw: SplitWorld, step: SplitStep) returns (next: SplitWorld)
    requires Reachable(sw) && Ordinary(step)
    ensures next == NextSplit(sw, step) && Reachable(next)
  {
    next := NextSplit(sw, step);
    var worlds, steps :| LeadsFromEmpty(worlds, steps, sw);
    var longer, more := worlds + [next], steps + [step];
    forall i | 0 <= i < |more|
      ensures SplitLinked(longer, more, i)
    {
      assert i < |steps| ==> SplitLinked(worlds, steps, i);
    }
    assert LeadsFromEmpty(longer, more, next);
  }

  lemma ReachableRun(worlds: seq<World>, calls: seq<Call>) returns (sw: SplitWorld)
    requires Trace(worlds, calls) && LedgerOnly(calls) && NoRegeneration(calls)
    ensures Reachable(sw) && sw.world == Last(worlds) && sw.flights == [] && sw.scans == []
    ensures (forall i | 0 <= i < |calls| :: !calls[i].Granting?) ==> sw.issued == []
  {
    var split, steps := AtomicRunIsSplit(worlds, calls);
    sw := split[|steps|];
    assert LeadsFromEmpty(split, steps, sw);
  }

  /** A scan has read the certification as valid and is in flight. */
  predicate ValidLooked(sw: SplitWorld) {
    && StandsAt(sw.world, 0, Granted) && sw.flights == [] && |sw.scans| == 1
    && sw.scans[0].signature == Signature(0, 0) && sw.scans[0].answer.valid && !sw.scans[0].landed
  }

  lemma EvictionSteps(sw: SplitWorld)
    requires sw.flights == [Evicting(0)] && StandsAt(sw.world, 0, Revoked)
    ensures var finished := NextSplit(NextSplit(sw, Proceed(0)), Proceed(0));
            finished.flights == [Landed] && StandsAt(finished.world, 0, Revoked) && finished.scans == sw.scans
  {
    assert NextSplit(sw, Proceed(0)).flights == [Deactivating(0)];
  }

  lemma RevokeMeanwhile(sw: SplitWorld) returns (finished: SplitWorld)
    requires Reachable(sw) && ValidLooked(sw)
    ensures Reachable(finished) && finished.flights == [Landed] && finished.scans == sw.scans
    ensures StandsAt(finished.world, 0, Revoked)
  {
    var begun := ReachableNext(sw, Begin(Revoking(0, "fraud", Http())));
    var committed := ReachableNext(begun, Proceed(0));
    EvictionSteps(committed);
    var evicted := ReachableNext(committed, Proceed(0));
    finished := ReachableNext(evicted, Proceed(0));
  }

  /**
   * Without any regeneration a scan can outrun a revocation: it reads GRANTED, the revocation commits, evicts and
   * deactivates, and then the scan stores its answer, which verifies again.
   */
  lemma ScanOutrunsRevocation() returns (sw: SplitWorld)
    ensures Reachable(sw) && sw.flights == [Landed] && StandsAt(sw.world, 0, Revoked)
    ensures Answer(sw.world, Signature(0, 0)).valid
  {
    var worlds, calls := JustGranted();
    sw := ReachableRun(worlds, calls);
    sw := ReachableNext(sw, Look(Signature(0, 0)));
    sw := RevokeMeanwhile(sw);
    sw := ReachableNext(sw, Store(0, None, true));
  }

  // ----- Two grants of one certification -----

  const UNTIL: Time := 1_000_000

  function SampleGrant(): Call {
    Granting(0, 0, UNTIL, 2026, Http())
  }

  /** An ordinary run leads to a state in which two overlapping grants of certification 0 break the ledger. */
  lemma GrantsOverlapAfterARun() returns (worlds: seq<World>, calls: seq<Call>)
    ensures Trace(worlds, calls) && LedgerOnly(calls)
    ensures var sw := Run(Unsplit(Last(worlds)),
                          TwoDrawSteps(SampleGrant(), SampleGrant()) + [Proceed(0)] + [Proceed(1)]);
            Replay(Ledger.EdgesOf(sw.world.ledger, 0), Draft) == None
  {
    worlds, calls := Climb(8);
    TwoGrantsOverlap(Last(worlds), SampleGrant(), SampleGrant());
  }

  /** An ordinary run leads to a state in which two overlapping deliveries of one event both write their row. */
  lemma DeliveriesOverlapAfterARun() returns (worlds: seq<World>, calls: seq<Call>)
    ensures Trace(worlds, calls) && LedgerOnly(calls)
    ensures var begin := Begin(Rung(6));
            !LabEvents.LabRowsDistinct(
              Run(Unsplit(Last(worlds)), [begin, begin, Proceed(0), Proceed(1)]).world.ledger)
  {
    worlds, calls := Climb(6);
    var w := Last(worlds);
    LabEvents.OneLabRowPerEvent(worlds, calls, |calls|);
    assert "event"[0] != "http"[0];
    assert AwaitsLab(w.certifications, "batch", 0);
    LabEvents.TwoDeliveriesOverlap(w, LabEvent("event", "batch", "test", true), 0);
  }

  /** Both grants have read UNDER_REVIEW and drawn their numbers. */
  ghost predicate BothNumbered(sw: SplitWorld) {
    && |sw.world.certifications| == 1 && TwoNumbered(sw, 0) && sw.scans == []
    && sw.world.qrCodes == map[] && sw.world.cache == map[] && sw.world.now == 0
    && sw.flights[0].cert.grant.value.validUntil == UNTIL && sw.flights[1].cert.grant.value.validUntil == UNTIL
  }

  lemma BothRead() returns (sw: SplitWorld)
    ensures Reachable(sw) && BothNumbered(sw)
  {
    var worlds, calls := Climb(8);
    var start := ReachableRun(worlds, calls);
    assert start == Unsplit(Last(worlds));
    var g := SampleGrant();
    TwoDraws(start.world, g, g);
    RunFour(start, Begin(g), Begin(g), Proceed(0), Proceed(1));
    sw := ReachableNext(start, Begin(g));
    sw := ReachableNext(sw, Begin(g));
    sw := ReachableNext(sw, Proceed(0));
    sw := ReachableNext(sw, Proceed(1));
  }

  /** One grant committed and its code issued, the other about to commit. */
  ghost predicate OneLanded(sw: SplitWorld, pending: Flight) {
    && |sw.world.certifications| == 1 && sw.world.certifications[0].currentStatus == Granted
    && sw.flights == [Landed, pending] && sw.scans == []
    && sw.world.qrCodes == map[Signature(0, 0) := QrCode(true, 0, Some(UNTIL))]
    && sw.world.cache == map[] && sw.world.now == 0
    && pending.Deciding? && pending.id == 0 && pending.event == DecisionGranted
    && pending.cert.currentStatus == UnderReview
    && pending.cert.grant.Some? && pending.cert.grant.value.validUntil == UNTIL
  }

  lemma FirstLands(sw: SplitWorld)
    requires BothNumbered(sw)
    ensures OneLanded(NextSplit(NextSplit(sw, Proceed(0)), Proceed(0)), sw.flights[1])
  {
    GrantCommits(sw, 0);
    var committed := NextSplit(sw, Proceed(0));
    assert committed.flights == [Issuing(0), sw.flights[1]];
    assert Deactivate(committed.world.qrCodes, 0) == map[];
  }

  lemma OneGrantLands() returns (sw: SplitWorld, pending: Flight)
    ensures Reachable(sw) && OneLanded(sw, pending)
  {
    var both := BothRead();
    FirstLands(both);
    pending := both.flights[1];
    sw := ReachableNext(both, Proceed(0));
    sw := ReachableNext(sw, Proceed(0));
  }

  /** A late commit makes the certification GRANTED and its code is issued now. */
  lemma SecondLands(sw: SplitWorld, pending: Flight)
    requires |sw.world.certifications| == 1 && sw.flights == [Landed, pending]
    requires pending.Deciding? && pending.id == 0 && pending.event == DecisionGranted
    requires pending.cert.currentStatus == UnderReview
    requires pending.cert.grant.Some? && pending.cert.grant.value.validUntil == UNTIL
    requires Signature(0, sw.world.now) !in sw.world.qrCodes && sw.world.now <= UNTIL
    ensures var issued := NextSplit(NextSplit(sw, Proceed(1)), Proceed(1));
            && |issued.world.certifications| == 1 && issued.world.certifications[0].currentStatus == Granted
            && issued.world.qrCodes == Deactivate(sw.world.qrCodes, 0)[
                 Signature(0, sw.world.now) := QrCode(true, 0, Some(UNTIL))]
            && issued.world.cache == sw.world.cache && issued.world.now == sw.world.now
            && issued.flights == [Landed, Landed] && issued.scans == sw.scans
  {
    GrantCommits(sw, 1);
    var committed := NextSplit(sw, Proceed(1));
    assert committed.flights == [Landed, Issuing(0)];
  }

  /** The other grant's two steps from any reachable state. */
  lemma OtherGrantLands(sw: SplitWorld, pending: Flight) returns (issued: SplitWorld)
    requires Reachable(sw) && |sw.world.certifications| == 1 && sw.flights == [Landed, pending]
    requires pending.Deciding? && pending.id == 0 && pending.event == DecisionGranted
    requires pending.cert.currentStatus == UnderReview
    requires pending.cert.grant.Some? && pending.cert.grant.value.validUntil == UNTIL
    requires Signature(0, sw.world.now) !in sw.world.qrCodes && sw.world.now <= UNTIL
    ensures Reachable(issued) && issued == Run(sw, [Proceed(1), Proceed(1)])
    ensures |issued.world.certifications| == 1 && issued.world.certifications[0].currentStatus == Granted
    ensures issued.world.qrCodes == Deactivate(sw.world.qrCodes, 0)[
                                    Signature(0, sw.world.now) := QrCode(true, 0, Some(UNTIL))]
    ensures issued.world.cache == sw.world.cache && issued.world.now == sw.world.now
    ensures issued.flights == [Landed, Landed] && issued.scans == sw.scans
  {
    SecondLands(sw, pending);
    var committed := ReachableNext(sw, Proceed(1));
    issued := ReachableNext(committed, Proceed(1));
    RunTwo(sw, Proceed(1), Proceed(1));
  }

  lemma RevokedAlone(sw: SplitWorld, pending: Flight)
    requires OneLanded(sw, pending)
    ensures var revoked := NextSplit(sw, Whole(Revoking(0, "fraud", Http())));
            && |revoked.world.certifications| == 1 && StandsAt(revoked.world, 0, Revoked)
            && revoked.world.qrCodes.Keys == {Signature(0, 0)} && revoked.world.cache == map[]
            && revoked.world.now == 0 && revoked.flights == sw.flights && revoked.scans == []
  {
    RevokedTables(sw.world, 0, "fraud", Http());
  }

  /**
   * A grant that read before the first one committed lands long after the revocation: the certification verifies again
   * more than the TTL later, with no scan in flight, nothing cached and no regeneration.
   */
  lemma LateGrantRevives() returns (revoked: SplitWorld, later: SplitWorld)
    ensures Reachable(revoked) && StandsAt(revoked.world, 0, Revoked) && revoked.scans == []
    ensures revoked.world.cache == map[]
    ensures Reachable(later) && later.world.now > revoked.world.now + 300_000
    ensures Answer(later.world, Signature(0, later.world.now)).valid
    ensures later == Run(NextSplit(revoked, Whole(Tick(TTL + 1))), [Proceed(1), Proceed(1)])
  {
    var sw, pending := OneGrantLands();
    RevokedAlone(sw, pending);
    revoked := ReachableNext(sw, Whole(Revoking(0, "fraud", Http())));
    later := LandsLater(revoked, pending);
  }

  lemma LandsLater(revoked: SplitWorld, pending: Flight) returns (later: SplitWorld)
    requires Reachable(revoked) && |revoked.world.certifications| == 1 && revoked.flights == [Landed, pending]
    requires revoked.world.qrCodes.Keys == {Signature(0, 0)} && revoked.world.cache == map[] && revoked.world.now == 0
    requires pending.Deciding? && pending.id == 0 && pending.event == DecisionGranted
    requires pending.cert.currentStatus == UnderReview
    requires pending.cert.grant.Some? && pending.cert.grant.value.validUntil == UNTIL
    ensures Reachable(later) && later.world.now == TTL + 1
    ensures Answer(later.world, Signature(0, later.world.now)).valid
    ensures later == Run(NextSplit(revoked, Whole(Tick(TTL + 1))), [Proceed(1), Proceed(1)])
  {
    var waited := ReachableNext(revoked, Whole(Tick(TTL + 1)));
    later := OtherGrantLands(waited, pending);
    ValidLookup(later.world, Signature(0, TTL + 1));
  }

  lemma RunTwo(sw: SplitWorld, a: SplitStep, b: SplitStep)
    ensures Run(sw, [a, b]) == NextSplit(NextSplit(sw, a), b)
  {
    assert [a, b][1..] == [b];
    RunOne(NextSplit(sw, a), b);
  }

  /**
   * The second grant's code replaces the first one's without evicting its cached answer, so the first code still
   * verifies after a complete revocation, again without any regeneration.
   */
  lemma ReplacedCodeOutlivesRevocation() returns (sw: SplitWorld)
    ensures Reachable(sw) && sw.flights == [Landed, Landed] && sw.scans == []
    ensures StandsAt(sw.world, 0, Revoked) && Answer(sw.world, Signature(0, 0)).valid
  {
    var one, pending := OneGrantLands();
    var cached := ScannedThenTicked(one, pending);
    sw := OtherGrantLands(cached, pending);
    RevokedButValid(sw.world);
    sw := ReachableNext(sw, Whole(Revoking(0, "fraud", Http())));
  }

  lemma ScannedThenTicked(one: SplitWorld, pending: Flight) returns (sw: SplitWorld)
    requires Reachable(one) && OneLanded(one, pending)
    ensures Reachable(sw) && |sw.world.certifications| == 1 && sw.flights == [Landed, pending] && sw.scans == []
    ensures sw.world.qrCodes.Keys == {Signature(0, 0)} && sw.world.now == 1
    ensures Signature(0, 0) in sw.world.cache && sw.world.cache[Signature(0, 0)].answer.valid
    ensures sw.world.cache[Signature(0, 0)].storedAt == 0
  {
    ScannedOnce(one.world);
    sw := ReachableNext(one, Whole(Verifying(Signature(0, 0), None, true)));
    sw := ReachableNext(sw, Whole(Tick(1)));
  }

  lemma ScannedOnce(w: World)
    requires |w.certifications| == 1 && w.certifications[0].currentStatus == Granted
    requires w.qrCodes == map[Signature(0, 0) := QrCode(true, 0, Some(UNTIL))] && w.cache == map[] && w.now == 0
    ensures var w' := Step(w, Verifying(Signature(0, 0), None, true));
            && w'.certifications == w.certifications && w'.now == 0
            && w'.qrCodes.Keys == {Signature(0, 0)}
            && Signature(0, 0) in w'.cache && w'.cache[Signature(0, 0)].answer.valid
            && w'.cache[Signature(0, 0)].storedAt == 0
  {
    ValidLookup(w, Signature(0, 0));
  }
}

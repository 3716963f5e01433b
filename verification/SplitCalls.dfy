/**
 * Calls split at their awaits. A transition reads and checks the certification, draws a number if it grants, commits
 * the entity as it was read, and then issues a code, or evicts and deactivates, or evicts and adds the renewal's draft.
 * A scan reads cache and tables, then counts itself and stores its answer. Any number of both are in flight, and whole
 * calls of every service run in between.
 */
module SplitCalls {
  import opened Text
  import opened Lifecycle
  import opened CertificateNumber
  import opened Registry
  import opened Changes
  import opened Decisions
  import opened Staleness

  /** A request between two awaits: the entity it holds and what it is about to do. */
  datatype Flight =
    | Numbering(id: Id, cert: Certification, validFrom: Time, validUntil: Time, year: nat, actor: Actor)
    | Deciding(id: Id, cert: Certification, event: EventType, actor: Actor, payload: Payload)
    | Issuing(id: Id)
    | Evicting(id: Id)
    | Deactivating(id: Id)
    | Superseding(id: Id, terms: Terms, userId: string)
    | Drafting(id: Id, terms: Terms, userId: string)
    | Landed

  /** A scan that missed the cache and got an answer worth counting from the tables. */
  datatype Scan = Scan(signature: Signature, answer: Verification, readAt: Time, landed: bool)

  /** One number drawn from a counter, and for which certification. */
  datatype Issue = Issue(id: Id, number: Number)

  /** issued is a history of the counters' answers; the program has no such table. */
  datatype SplitWorld = SplitWorld(world: World, flights: seq<Flight>, scans: seq<Scan>, issued: seq<Issue>)

  datatype SplitStep =
    | Whole(call: Call)
    | Begin(call: Call)
    | Proceed(flight: nat)
    | Look(signature: Signature)
    | Store(scan: nat, ip: Option<string>, logged: bool)

  // ----- Transitions -----

  /** The read and the guard of a transition; the entity already carries what a denial or a revocation sets. */
  function Begun(w: World, c: Call): Option<Flight> {
    match c
    case Advanced(id, stage, actor) =>
      if StandsAt(w, id, EdgeOf(StageEvent(stage)).from)
      then Some(Deciding(id, w.certifications[id], StageEvent(stage), actor, StagePayload(stage, w.now)))
      else None
    case LabTestCompleted(e, pick) =>
      if IsEventProcessed(w, e.eventId) then None
      else
        (match FindAwaiting(w.certifications, e.batchId, pick)
         case None => None
         case Some(id) =>
           Some(Deciding(id, w.certifications[id], EventType.LabResultsReceived,
                         Actor("system", "service-account", e.eventId), LabReport(e.labTestId, e.passed, w.now))))
    case Granting(id, validFrom, validUntil, year, actor) =>
      if StandsAt(w, id, UnderReview)
      then Some(Numbering(id, w.certifications[id], validFrom, validUntil, year, actor))
      else None
    case Denying(id, reason, actor) =>
      if StandsAt(w, id, UnderReview)
      then Some(Deciding(id, w.certifications[id].(denial := Some(Refusal(actor.id, w.now, reason))), DecisionDenied,
                         actor, Reason(reason)))
      else None
    case Revoking(id, reason, actor) =>
      if StandsAt(w, id, Granted)
      then Some(Deciding(id, w.certifications[id].(revocation := Some(Refusal(actor.id, w.now, reason))),
                         CertificateRevoked, actor, Reason(reason)))
      else None
    case Renewing(id, actor) =>
      if StandsAt(w, id, Granted)
      then Some(Deciding(id, w.certifications[id], CertificateRenewed, actor, NoPayload))
      else None
    case _ => None
  }

  /** A flight begins with the row as read, edited at most by a refusal. */
  lemma BegunHolds(w: World, c: Call)
    requires Begun(w, c).Some?
    ensures var f := Begun(w, c).value;
            && (f.Numbering? || f.Deciding?) && f.id < |w.certifications|
            && f.cert.certificationNumber == w.certifications[f.id].certificationNumber
            && f.cert.grant == w.certifications[f.id].grant && f.cert.terms == w.certifications[f.id].terms
            && f.cert.currentStatus == w.certifications[f.id].currentStatus
            && (f.Deciding? ==> f.event != DecisionGranted && f.cert.currentStatus == EdgeOf(f.event).from)
  {
  }

  /** What is left to do after the commit. */
  function Following(id: Id, cert: Certification, event: EventType, actor: Actor): Flight {
    match event
    case DecisionGranted => Issuing(id)
    case CertificateRevoked => Evicting(id)
    case CertificateRenewed => Superseding(id, cert.terms, actor.id)
    case _ => Landed
  }

  function NumberFor(terms: Terms, year: nat, sequence: nat): Number {
    Number(terms.certificationType, terms.regionCode, year, sequence)
  }

  function SeriesOfNumber(n: Number): Series {
    Series(Abbreviation(n.kind), n.region, n.year)
  }

  /** The next number of a certification's series. */
  function Draw(w: World, id: Id, terms: Terms, year: nat): Issue {
    Issue(id, NumberFor(terms, year, LastSeq(w, SeriesOf(terms, year)) + 1))
  }

  /** The number an atomic grant draws. */
  function DrawnBy(w: World, c: Call): seq<Issue> {
    if c.Granting? && StandsAt(w, c.id, UnderReview) then [Draw(w, c.id, w.certifications[c.id].terms, c.year)] else []
  }

  /** A flight's next step. */
  ghost function Proceeded(sw: SplitWorld, f: nat): SplitWorld
    requires f < |sw.flights|
  {
    var w := sw.world;
    match sw.flights[f]
    case Numbering(id, cert, validFrom, validUntil, year, actor) =>
      var issue := Draw(w, id, cert.terms, year);
      var number := Print(issue.number);
      var decided := Deciding(id, Awarded(cert, number, actor.id, w.now, validFrom, validUntil), DecisionGranted, actor,
                              Award(number, validFrom, validUntil));
      sw.(world := Increment(w, SeriesOf(cert.terms, year)), flights := sw.flights[f := decided],
          issued := sw.issued + [issue])
    case Deciding(id, cert, event, actor, payload) =>
      if id >= |w.certifications| then sw
      else
        sw.(world := Transition(w, id, cert, event, actor, payload),
            flights := sw.flights[f := Following(id, cert, event, actor)])
    case Issuing(id) => sw.(world := GenerateQrCode(w, id).world, flights := sw.flights[f := Landed])
    case Evicting(id) => sw.(world := EvictQrCache(w, id), flights := sw.flights[f := Deactivating(id)])
    case Deactivating(id) =>
      sw.(world := w.(qrCodes := Deactivate(w.qrCodes, id)), flights := sw.flights[f := Landed])
    case Superseding(id, terms, userId) =>
      sw.(world := EvictQrCache(w, id), flights := sw.flights[f := Drafting(id, terms, userId)])
    case Drafting(id, terms, userId) =>
      sw.(world := w.(certifications := w.certifications + [NewDraft(terms, userId, w.now, Some(id))]),
          flights := sw.flights[f := Landed])
    case Landed => sw
  }

  // ----- Scans -----

  /** The second half of a scan: the counter, the cache entry, and a row if the answer was valid. */
  function StoreScan(w: World, s: Signature, answer: Verification, ip: Option<string>, logged: bool): World {
    w.(qrCodes := if s in w.qrCodes then w.qrCodes[s := Scanned(w.qrCodes[s])] else w.qrCodes,
       cache := w.cache[s := CacheEntry(answer, w.now)],
       scans := if answer.valid && logged then w.scans + [ScanEvent(s, ip, w.now)] else w.scans)
  }

  predicate Lands(sw: SplitWorld, step: SplitStep) {
    step.Store? && step.scan < |sw.scans| && !sw.scans[step.scan].landed
  }

  // ----- Steps and runs -----

  ghost function NextSplit(sw: SplitWorld, step: SplitStep): SplitWorld {
    match step
    case Whole(c) => sw.(world := Step(sw.world, c), issued := sw.issued + DrawnBy(sw.world, c))
    case Begin(c) =>
      (match Begun(sw.world, c)
       case None => sw
       case Some(flight) => sw.(flights := sw.flights + [flight]))
    case Proceed(f) => if f < |sw.flights| then Proceeded(sw, f) else sw
    case Look(s) =>
      if !Misses(sw.world, s) then sw
      else sw.(scans := sw.scans + [Scan(s, Lookup(sw.world, s), sw.world.now, false)])
    case Store(k, ip, logged) =>
      if !Lands(sw, step) then sw
      else
        sw.(world := StoreScan(sw.world, sw.scans[k].signature, sw.scans[k].answer, ip, logged),
            scans := sw.scans[k := sw.scans[k].(landed := true)])
  }

  /** The i-th step leads from the i-th state to the next. */
  ghost predicate SplitLinked(worlds: seq<SplitWorld>, steps: seq<SplitStep>, i: nat)
    requires i < |steps| && i + 1 < |worlds|
  {
    worlds[i + 1] == NextSplit(worlds[i], steps[i])
  }

  function Unsplit(w: World): SplitWorld {
    SplitWorld(w, [], [], [])
  }

  ghost predicate SplitTrace(worlds: seq<SplitWorld>, steps: seq<SplitStep>) {
    && |worlds| == |steps| + 1
    && worlds[0] == Unsplit(Blank(worlds[0].world.now))
    && forall i | 0 <= i < |steps| :: SplitLinked(worlds, steps, i)
  }

  /** Where a sequence of steps leads. */
  ghost function Run(sw: SplitWorld, steps: seq<SplitStep>): SplitWorld
    decreases |steps|
  {
    if steps == [] then sw else Run(NextSplit(sw, steps[0]), steps[1..])
  }

  lemma RunOne(sw: SplitWorld, step: SplitStep)
    ensures Run(sw, [step]) == NextSplit(sw, step)
  {
    assert [step][1..] == [];
    assert Run(NextSplit(sw, step), []) == NextSplit(sw, step);
  }

  lemma {:induction false} RunConcat(sw: SplitWorld, a: seq<SplitStep>, b: seq<SplitStep>)
    ensures Run(sw, a + b) == Run(Run(sw, a), b)
    decreases |a|
  {
    if a == [] {
      assert a + b == b;
    } else {
      assert (a + b)[1..] == a[1..] + b;
      RunConcat(NextSplit(sw, a[0]), a[1..], b);
    }
  }

  lemma RunFour(sw: SplitWorld, a: SplitStep, b: SplitStep, c: SplitStep, d: SplitStep)
    ensures Run(sw, [a, b, c, d]) == NextSplit(NextSplit(NextSplit(NextSplit(sw, a), b), c), d)
  {
    assert [a, b, c, d] == [a] + ([b] + ([c] + [d]));
    RunConcat(sw, [a], [b] + ([c] + [d]));
    RunOne(sw, a);
    var one := NextSplit(sw, a);
    RunConcat(one, [b], [c] + [d]);
    RunOne(one, b);
    var two := NextSplit(one, b);
    RunConcat(two, [c], [d]);
    RunOne(two, c);
    RunOne(NextSplit(two, c), d);
  }

  /** CertificationService steps: no status is written behind the ledger's back. */
  predicate Guarded(step: SplitStep) {
    step.Whole? ==> !IsInspection(step.call)
  }

  predicate AllGuarded(steps: seq<SplitStep>) {
    forall i | 0 <= i < |steps| :: Guarded(steps[i])
  }

  // ----- The parts make the whole -----

  /** n steps of the only flight. */
  ghost function Alone(sw: SplitWorld, n: nat): SplitWorld
    decreases n
  {
    if n == 0 then sw else Alone(NextSplit(sw, Proceed(0)), n - 1)
  }

  lemma AloneThree(sw: SplitWorld)
    ensures Alone(sw, 3) == NextSplit(NextSplit(NextSplit(sw, Proceed(0)), Proceed(0)), Proceed(0))
  {
    var once := NextSplit(sw, Proceed(0));
    var twice := NextSplit(once, Proceed(0));
    assert Alone(sw, 3) == Alone(once, 2) == Alone(twice, 1) == Alone(NextSplit(twice, Proceed(0)), 0);
  }

  /** How many steps a flight has left. */
  function Left(f: Flight): nat {
    match f
    case Numbering(_, _, _, _, _, _) => 3
    case Deciding(_, _, event, _, _) =>
      if event == DecisionGranted then 2
      else if event == CertificateRevoked || event == CertificateRenewed then 3
      else 1
    case Issuing(_) => 1
    case Evicting(_) => 2
    case Deactivating(_) => 1
    case Superseding(_, _, _) => 2
    case Drafting(_, _, _) => 1
    case Landed => 0
  }

  predicate IsTransitionCall(c: Call) {
    c.Advanced? || c.LabTestCompleted? || c.Granting? || c.Denying? || c.Revoking? || c.Renewing?
  }

  /** Begun alone and run to its end, the transition does what the call does. */
  ghost predicate BegunIsAtomic(w: World, c: Call)
    requires Begun(w, c).Some?
  {
    Alone(NextSplit(Unsplit(w), Begin(c)), Left(Begun(w, c).value)) ==
    SplitWorld(Step(w, c), [Landed], [], DrawnBy(w, c))
  }

  lemma GrantIsAtomic(w: World, c: Call)
    requires c.Granting? && Begun(w, c).Some?
    ensures BegunIsAtomic(w, c)
  {
    var begun := NextSplit(Unsplit(w), Begin(c));
    GrantSteps(w, c);
    AloneThree(begun);
  }

  /** Numbering and commit of a grant are its transition. */
  lemma GrantSteps(w: World, c: Call)
    requires c.Granting? && Begun(w, c).Some?
    ensures NextSplit(NextSplit(NextSplit(Unsplit(w), Begin(c)), Proceed(0)), Proceed(0)) ==
            SplitWorld(GrantTransition(w, c.id, c.validFrom, c.validUntil, c.year, c.actor), [Issuing(c.id)], [],
                       DrawnBy(w, c))
  {
    var drawn := NextSplit(NextSplit(Unsplit(w), Begin(c)), Proceed(0));
    var key := SeriesOf(w.certifications[c.id].terms, c.year);
    assert LastSeq(Increment(w, key), key) == LastSeq(w, key) + 1;
    assert NextSplit(drawn, Proceed(0)).flights == [Issuing(c.id)];
  }

  lemma RevocationIsAtomic(w: World, c: Call)
    requires c.Revoking? && Begun(w, c).Some?
    ensures BegunIsAtomic(w, c)
  {
    var begun := NextSplit(Unsplit(w), Begin(c));
    var committed := NextSplit(begun, Proceed(0));
    assert committed.world == RevokeTransition(w, c.id, c.reason, c.actor) && committed.flights == [Evicting(c.id)];
    var evicted := NextSplit(committed, Proceed(0));
    assert evicted.flights == [Deactivating(c.id)];
    AloneThree(begun);
  }

  lemma RenewalIsAtomic(w: World, c: Call)
    requires c.Renewing? && Begun(w, c).Some?
    ensures BegunIsAtomic(w, c)
  {
    var begun := NextSplit(Unsplit(w), Begin(c));
    var committed := NextSplit(begun, Proceed(0));
    var terms := w.certifications[c.id].terms;
    assert committed.flights == [Superseding(c.id, terms, c.actor.id)];
    var evicted := NextSplit(committed, Proceed(0));
    assert evicted.flights == [Drafting(c.id, terms, c.actor.id)];
    AloneThree(begun);
  }

  lemma OneCommitIsAtomic(w: World, c: Call)
    requires (c.Advanced? || c.LabTestCompleted? || c.Denying?) && Begun(w, c).Some?
    ensures BegunIsAtomic(w, c)
  {
    var begun := NextSplit(Unsplit(w), Begin(c));
    var committed := NextSplit(begun, Proceed(0));
    assert committed.flights == [Landed] && committed.world == Step(w, c);
    assert Alone(committed, 0) == committed;
  }

  lemma RefusedIsNothing(w: World, c: Call)
    requires IsTransitionCall(c) && Begun(w, c).None?
    ensures NextSplit(Unsplit(w), Begin(c)) == Unsplit(w) && Step(w, c) == w
  {
  }

  /** The steps of any transition run back to back are the atomic call; one that is refused leaves nothing in flight. */
  lemma SplitTransitionIsAtomic(w: World, c: Call)
    requires IsTransitionCall(c)
    ensures Begun(w, c).Some? ==> BegunIsAtomic(w, c)
    ensures Begun(w, c).None? ==> NextSplit(Unsplit(w), Begin(c)) == Unsplit(w) && Step(w, c) == w
  {
    if Begun(w, c).None? {
      RefusedIsNothing(w, c);
    } else if c.Granting? {
      GrantIsAtomic(w, c);
    } else if c.Revoking? {
      RevocationIsAtomic(w, c);
    } else if c.Renewing? {
      RenewalIsAtomic(w, c);
    } else {
      OneCommitIsAtomic(w, c);
    }
  }

  /** The two steps of a scan run back to back are the atomic call; a scan that does not miss is over at once. */
  lemma SplitScanIsAtomic(w: World, s: Signature, ip: Option<string>, logged: bool)
    ensures NextSplit(NextSplit(Unsplit(w), Look(s)), Store(0, ip, logged)).world ==
            VerifyQrCode(w, s, ip, logged).world
  {
    if Misses(w, s) {
      assert [Scan(s, Lookup(w, s), w.now, false)][0].signature == s;
    }
  }

  /** A run of whole calls is a split run with nothing in flight. */
  lemma AtomicRunIsSplit(worlds: seq<World>, calls: seq<Call>) returns (split: seq<SplitWorld>, steps: seq<SplitStep>)
    requires Trace(worlds, calls)
    ensures SplitTrace(split, steps) && |steps| == |calls|
    ensures forall i | 0 <= i < |calls| :: steps[i] == Whole(calls[i])
    ensures forall i | 0 <= i <= |calls| ::
              split[i].world == worlds[i] && split[i].flights == [] && split[i].scans == []
    ensures (forall i | 0 <= i < |calls| :: !calls[i].Granting?) ==> split[|calls|].issued == []
  {
    split, steps := [Unsplit(worlds[0])], [];
    var n := 0;
    while n < |calls|
      invariant n <= |calls| && |steps| == n
      invariant SplitTrace(split, steps)
      invariant forall i | 0 <= i < n :: steps[i] == Whole(calls[i])
      invariant forall i | 0 <= i <= n ::
                  split[i].world == worlds[i] && split[i].flights == [] && split[i].scans == []
      invariant (forall i | 0 <= i < n :: !calls[i].Granting?) ==> split[n].issued == []
    {
      assert Linked(worlds, calls, n);
      var longer, more := split + [NextSplit(split[n], Whole(calls[n]))], steps + [Whole(calls[n])];
      forall i | 0 <= i < |more|
        ensures SplitLinked(longer, more, i)
      {
        assert i < n ==> SplitLinked(split, steps, i);
      }
      split, steps := longer, more;
      n := n + 1;
    }
  }

  // ----- What steps change -----

  /** A flight's steps leave clock and scans alone, and the cache only ever loses entries to them. */
  lemma ProceedingKeepsScans(sw: SplitWorld, f: nat)
    requires f < |sw.flights|
    ensures var w' := Proceeded(sw, f).world;
            && w'.now == sw.world.now && Proceeded(sw, f).scans == sw.scans
            && w'.cache.Keys <= sw.world.cache.Keys
            && forall s | s in w'.cache :: w'.cache[s] == sw.world.cache[s]
  {
  }

  /** An entry after a step was there before, or is the present lookup's, or was carried by a scan that landed. */
  lemma CacheAfterSplit(sw: SplitWorld, step: SplitStep, s: Signature)
    requires s in NextSplit(sw, step).world.cache
    ensures var e := NextSplit(sw, step).world.cache[s];
            || (s in sw.world.cache && e == sw.world.cache[s])
            || (e == CacheEntry(Lookup(sw.world, s), sw.world.now) && Counted(Lookup(sw.world, s)))
            || (Lands(sw, step) && sw.scans[step.scan].signature == s &&
                e == CacheEntry(sw.scans[step.scan].answer, sw.world.now))
  {
    match step
    case Whole(c) => CacheAfter(sw.world, c, s);
    case Proceed(f) =>
      if f < |sw.flights| {
        ProceedingKeepsScans(sw, f);
      }
    case _ =>
  }

  /** A scan in flight after a step was there before, or has just read the tables. */
  lemma ScansAfterSplit(sw: SplitWorld, step: SplitStep, k: nat)
    requires k < |NextSplit(sw, step).scans|
    ensures var scan := NextSplit(sw, step).scans[k];
            || (k < |sw.scans| && (scan == sw.scans[k] || scan == sw.scans[k].(landed := true)))
            || (k == |sw.scans| && step.Look? &&
                scan == Scan(step.signature, Lookup(sw.world, step.signature), sw.world.now, false) &&
                Counted(scan.answer))
  {
    if step.Proceed? && step.flight < |sw.flights| {
      ProceedingKeepsScans(sw, step.flight);
    }
  }

  lemma SplitClockAdvances(sw: SplitWorld, step: SplitStep)
    ensures sw.world.now <= NextSplit(sw, step).world.now
    ensures !(step.Whole? && step.call.Tick?) ==> NextSplit(sw, step).world.now == sw.world.now
  {
    match step
    case Whole(c) => ClockAdvances(sw.world, c);
    case Proceed(f) =>
      if f < |sw.flights| {
        ProceedingKeepsScans(sw, f);
      }
    case _ =>
  }

  lemma {:induction false} SplitClockIsMonotone(worlds: seq<SplitWorld>, steps: seq<SplitStep>, i: nat, j: nat)
    requires SplitTrace(worlds, steps) && i <= j <= |steps|
    ensures worlds[i].world.now <= worlds[j].world.now
    decreases j
  {
    if i < j {
      assert SplitLinked(worlds, steps, j - 1);
      SplitClockIsMonotone(worlds, steps, i, j - 1);
      SplitClockAdvances(worlds[j - 1], steps[j - 1]);
    }
  }

  // ----- Staleness with calls in flight -----

  /** What a scan carries is what the tables answered when it read them, at some instant j of the run. */
  ghost predicate ReadAt(worlds: seq<SplitWorld>, j: nat, i: nat, s: Signature, a: Verification)
    requires i < |worlds|
  {
    j <= i && Lookup(worlds[j].world, s) == a
  }

  lemma {:induction false} ScanExplained(worlds: seq<SplitWorld>, steps: seq<SplitStep>, i: nat, k: nat)
    returns (j: nat)
    requires SplitTrace(worlds, steps) && i <= |steps| && k < |worlds[i].scans|
    ensures ReadAt(worlds, j, i, worlds[i].scans[k].signature, worlds[i].scans[k].answer)
    ensures worlds[j].world.now == worlds[i].scans[k].readAt
  {
    assert i > 0;
    assert SplitLinked(worlds, steps, i - 1);
    ScansAfterSplit(worlds[i - 1], steps[i - 1], k);
    if k < |worlds[i - 1].scans| {
      j := ScanExplained(worlds, steps, i - 1, k);
    } else {
      j := i - 1;
    }
  }

  /** The step does not store an answer read more than delay milliseconds ago. */
  predicate PromptStep(sw: SplitWorld, step: SplitStep, delay: Time) {
    Lands(sw, step) ==> sw.world.now <= sw.scans[step.scan].readAt + delay
  }

  predicate Prompt(worlds: seq<SplitWorld>, steps: seq<SplitStep>, delay: Time)
    requires |worlds| == |steps| + 1
  {
    forall i | 0 <= i < |steps| :: PromptStep(worlds[i], steps[i], delay)
  }

  lemma {:induction false} EntryRead(worlds: seq<SplitWorld>, steps: seq<SplitStep>, i: nat, s: Signature, delay: Time)
    returns (j: nat)
    requires SplitTrace(worlds, steps) && Prompt(worlds, steps, delay) && i <= |steps| && s in worlds[i].world.cache
    ensures ReadAt(worlds, j, i, s, worlds[i].world.cache[s].answer)
    ensures worlds[i].world.cache[s].storedAt <= worlds[j].world.now + delay
  {
    assert i > 0;
    assert SplitLinked(worlds, steps, i - 1);
    var sw, step := worlds[i - 1], steps[i - 1];
    CacheAfterSplit(sw, step, s);
    if s in sw.world.cache && worlds[i].world.cache[s] == sw.world.cache[s] {
      j := EntryRead(worlds, steps, i - 1, s, delay);
    } else if worlds[i].world.cache[s] == CacheEntry(Lookup(sw.world, s), sw.world.now) {
      j := i - 1;
    } else {
      assert PromptStep(sw, step, delay);
      j := ScanExplained(worlds, steps, i - 1, step.scan);
    }
  }

  /**
   * Bounded staleness survives overlapping scans, transitions of every kind, regenerations and inspections, with the
   * longest time a scan spends between its read and its write added to the TTL.
   */
  lemma StalenessWithCallsInFlight(worlds: seq<SplitWorld>, steps: seq<SplitStep>, i: nat, s: Signature, delay: Time)
    returns (j: nat)
    requires SplitTrace(worlds, steps) && Prompt(worlds, steps, delay) && i <= |steps|
    ensures ReadAt(worlds, j, i, s, Answer(worlds[i].world, s))
    ensures worlds[j].world.now <= worlds[i].world.now <= worlds[j].world.now + 300_000 + delay
  {
    if Live(worlds[i].world, s) {
      j := EntryRead(worlds, steps, i, s, delay);
      SplitClockIsMonotone(worlds, steps, j, i);
    } else {
      j := i;
    }
  }
}

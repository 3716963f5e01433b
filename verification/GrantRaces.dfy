/**
 * Numbers and ledger when transitions overlap: the status check runs on an entity read before the transaction, so any
 * number of requests can be about to number and commit one certification.
 */
module GrantRaces {
  import opened Text
  import opened Lifecycle
  import opened CertificateNumber
  import opened Registry
  import opened Changes
  import opened Ledger
  import opened Decisions
  import opened SplitCalls

  // ----- Sequences: 1..last_seq, each once -----

  /** Within one series numbers come in increasing order and never exceed the counter. */
  predicate IssuedInOrder(w: World, issued: seq<Issue>) {
    && (forall i | 0 <= i < |issued| ::
          1 <= issued[i].number.sequence <= LastSeq(w, SeriesOfNumber(issued[i].number)))
    && (forall i, j | 0 <= i < j < |issued| && SeriesOfNumber(issued[i].number) == SeriesOfNumber(issued[j].number) ::
          issued[i].number.sequence < issued[j].number.sequence)
  }

  predicate Drawn(issued: seq<Issue>, s: Series, q: nat) {
    exists i | 0 <= i < |issued| :: SeriesOfNumber(issued[i].number) == s && issued[i].number.sequence == q
  }

  /** Every value up to the counter has been drawn. */
  ghost predicate NothingSkipped(w: World, issued: seq<Issue>) {
    forall s: Series, q: nat :: 1 <= q <= LastSeq(w, s) ==> Drawn(issued, s, q)
  }

  lemma SeriesAgree(w: World, id: Id, terms: Terms, year: nat)
    ensures SeriesOfNumber(Draw(w, id, terms, year).number) == SeriesOf(terms, year)
  {
  }

  lemma IncrementCounts(w: World, s: Series, t: Series)
    ensures LastSeq(Increment(w, s), t) == LastSeq(w, t) + if s == t then 1 else 0
  {
  }

  lemma DrawKeepsOrder(w: World, issued: seq<Issue>, issue: Issue)
    requires IssuedInOrder(w, issued)
    requires issue.number.sequence == LastSeq(w, SeriesOfNumber(issue.number)) + 1
    ensures IssuedInOrder(Increment(w, SeriesOfNumber(issue.number)), issued + [issue])
  {
    var s := SeriesOfNumber(issue.number);
    forall i | 0 <= i < |issued|
      ensures issued[i].number.sequence <= LastSeq(Increment(w, s), SeriesOfNumber(issued[i].number))
    {
      IncrementCounts(w, s, SeriesOfNumber(issued[i].number));
    }
    IncrementCounts(w, s, s);
  }

  lemma DrawSkipsNothing(w: World, issued: seq<Issue>, issue: Issue)
    requires NothingSkipped(w, issued)
    requires issue.number.sequence == LastSeq(w, SeriesOfNumber(issue.number)) + 1
    ensures NothingSkipped(Increment(w, SeriesOfNumber(issue.number)), issued + [issue])
  {
    var s := SeriesOfNumber(issue.number);
    var more := issued + [issue];
    forall t: Series, q: nat | 1 <= q <= LastSeq(Increment(w, s), t)
      ensures Drawn(more, t, q)
    {
      IncrementCounts(w, s, t);
      if q <= LastSeq(w, t) {
        assert Drawn(issued, t, q);
        var i :| 0 <= i < |issued| && SeriesOfNumber(issued[i].number) == t && issued[i].number.sequence == q;
        assert more[i] == issued[i];
      } else {
        assert more[|issued|] == issue;
      }
    }
  }

  // ----- Ownership: a number stays with the certification it was drawn for -----

  predicate Owned(issued: seq<Issue>, id: Id, cert: Certification) {
    cert.certificationNumber.Some? ==>
      exists i | 0 <= i < |issued| :: issued[i].id == id && Print(issued[i].number) == cert.certificationNumber.value
  }

  predicate TablesOwned(w: World, issued: seq<Issue>) {
    forall id | 0 <= id < |w.certifications| :: Owned(issued, id, w.certifications[id])
  }

  predicate FlightOwned(issued: seq<Issue>, f: Flight) {
    f.Numbering? || f.Deciding? ==> Owned(issued, f.id, f.cert)
  }

  predicate FlightsOwned(flights: seq<Flight>, issued: seq<Issue>) {
    forall f | 0 <= f < |flights| :: FlightOwned(issued, flights[f])
  }

  ghost predicate RaceInvariant(r: SplitWorld) {
    && IssuedInOrder(r.world, r.issued)
    && NothingSkipped(r.world, r.issued)
    && TablesOwned(r.world, r.issued)
    && FlightsOwned(r.flights, r.issued)
  }

  lemma StillOwned(issued: seq<Issue>, issue: Issue, id: Id, cert: Certification)
    requires Owned(issued, id, cert)
    ensures Owned(issued + [issue], id, cert)
  {
    if cert.certificationNumber.Some? {
      var i :| 0 <= i < |issued| && issued[i].id == id && Print(issued[i].number) == cert.certificationNumber.value;
      assert (issued + [issue])[i] == issued[i];
    }
  }

  lemma OwnsFresh(issued: seq<Issue>, issue: Issue, cert: Certification)
    requires cert.certificationNumber == Some(Print(issue.number))
    ensures Owned(issued + [issue], issue.id, cert)
  {
    assert (issued + [issue])[|issued|] == issue;
  }

  lemma CountersUntouched(w: World, c: Call)
    requires c.Granting? ==> !StandsAt(w, c.id, UnderReview)
    ensures Step(w, c).counters == w.counters
  {
    if IsSideCall(c) {
      SideCallsKeepTables(w, c);
    }
  }

  lemma ChangeKeepsOwners(d: Change, w: World, w': World, issued: seq<Issue>)
    requires TablesOwned(w, issued) && Applies(d, w, w') && (d.Moved? ==> d.row.edge.event != DecisionGranted)
    ensures TablesOwned(w', issued)
  {
    forall id | 0 <= id < |w'.certifications|
      ensures Owned(issued, id, w'.certifications[id])
    {
      if id < |w.certifications| {
        assert Owned(issued, id, w.certifications[id]);
        assert w'.certifications[id].certificationNumber == w.certifications[id].certificationNumber;
      }
    }
  }

  /** A call that grants nothing touches neither counters nor numbers. */
  lemma OtherCallKeepsInvariant(r: SplitWorld, c: Call)
    requires RaceInvariant(r) && (c.Granting? ==> !StandsAt(r.world, c.id, UnderReview))
    ensures RaceInvariant(NextSplit(r, Whole(c)))
  {
    var w, w' := r.world, Step(r.world, c);
    assert r.issued + [] == r.issued;
    CountersUntouched(w, c);
    assert forall s: Series :: LastSeq(w', s) == LastSeq(w, s);
    var d := ChangeOf(w, c);
    OnlyGrantsGrant(d, w, c);
    ChangeKeepsOwners(d, w, w', r.issued);
  }

  /** A number drawn for one certification: the tables and flights of all the others keep theirs. */
  lemma DrawKeepsOwners(r: SplitWorld, issue: Issue)
    requires TablesOwned(r.world, r.issued) && FlightsOwned(r.flights, r.issued)
    ensures TablesOwned(r.world, r.issued + [issue]) && FlightsOwned(r.flights, r.issued + [issue])
  {
    forall id | 0 <= id < |r.world.certifications|
      ensures Owned(r.issued + [issue], id, r.world.certifications[id])
    {
      StillOwned(r.issued, issue, id, r.world.certifications[id]);
    }
    forall f | 0 <= f < |r.flights|
      ensures FlightOwned(r.issued + [issue], r.flights[f])
    {
      if r.flights[f].Numbering? || r.flights[f].Deciding? {
        assert FlightOwned(r.issued, r.flights[f]);
        StillOwned(r.issued, issue, r.flights[f].id, r.flights[f].cert);
      }
    }
  }

  /** An accepted atomic grant increments its counter and gives the certification the number drawn. */
  lemma GrantDraws(w: World, c: Call) returns (issue: Issue)
    requires c.Granting? && StandsAt(w, c.id, UnderReview)
    ensures DrawnBy(w, c) == [issue] && issue.id == c.id
    ensures issue.number.sequence == LastSeq(w, SeriesOfNumber(issue.number)) + 1
    ensures Step(w, c).counters == Increment(w, SeriesOfNumber(issue.number)).counters
    ensures |Step(w, c).certifications| == |w.certifications|
    ensures Step(w, c).certifications[c.id].certificationNumber == Some(Print(issue.number))
    ensures forall id | 0 <= id < |w.certifications| && id != c.id ::
              Step(w, c).certifications[id] == w.certifications[id]
  {
    issue := DrawnBy(w, c)[0];
    SeriesAgree(w, c.id, w.certifications[c.id].terms, c.year);
    GrantedRow(w, c);
    GrantedCounters(w, c);
  }

  lemma GrantedCounters(w: World, c: Call)
    requires c.Granting? && StandsAt(w, c.id, UnderReview)
    ensures Step(w, c).counters == Increment(w, SeriesOf(w.certifications[c.id].terms, c.year)).counters
  {
  }

  lemma GrantedRow(w: World, c: Call)
    requires c.Granting? && StandsAt(w, c.id, UnderReview)
    ensures |Step(w, c).certifications| == |w.certifications|
    ensures Step(w, c).certifications[c.id].certificationNumber == Some(Print(DrawnBy(w, c)[0].number))
    ensures forall id | 0 <= id < |w.certifications| && id != c.id ::
              Step(w, c).certifications[id] == w.certifications[id]
  {
    var d := ChangeOf(w, c);
  }

  lemma GrantKeepsInvariant(r: SplitWorld, c: Call)
    requires RaceInvariant(r) && c.Granting? && StandsAt(r.world, c.id, UnderReview)
    ensures RaceInvariant(NextSplit(r, Whole(c)))
  {
    var issue := GrantDraws(r.world, c);
    var r' := NextSplit(r, Whole(c));
    var drawn := Increment(r.world, SeriesOfNumber(issue.number));
    DrawKeepsOrder(r.world, r.issued, issue);
    DrawSkipsNothing(r.world, r.issued, issue);
    assert forall s: Series :: LastSeq(r'.world, s) == LastSeq(drawn, s);
    DrawKeepsOwners(r, issue);
    forall id | 0 <= id < |r'.world.certifications|
      ensures Owned(r'.issued, id, r'.world.certifications[id])
    {
      if id == c.id {
        OwnsFresh(r.issued, issue, r'.world.certifications[id]);
      } else {
        assert Owned(r'.issued, id, r.world.certifications[id]);
      }
    }
  }

  lemma BeginKeepsInvariant(r: SplitWorld, c: Call)
    requires RaceInvariant(r)
    ensures RaceInvariant(NextSplit(r, Begin(c)))
  {
    var begun := Begun(r.world, c);
    if begun.Some? {
      BegunHolds(r.world, c);
      assert Owned(r.issued, begun.value.id, r.world.certifications[begun.value.id]);
      assert FlightOwned(r.issued, begun.value);
    }
  }

  lemma NumberingKeepsInvariant(r: SplitWorld, f: nat)
    requires RaceInvariant(r) && f < |r.flights| && r.flights[f].Numbering?
    ensures RaceInvariant(Proceeded(r, f))
  {
    var Numbering(id, cert, _, _, year, _) := r.flights[f];
    var s := SeriesOf(cert.terms, year);
    var issue := Draw(r.world, id, cert.terms, year);
    SeriesAgree(r.world, id, cert.terms, year);
    var r' := Proceeded(r, f);
    assert r'.issued == r.issued + [issue] && r'.world == Increment(r.world, s);
    DrawKeepsOrder(r.world, r.issued, issue);
    DrawSkipsNothing(r.world, r.issued, issue);
    DrawKeepsOwners(r, issue);
    forall g | 0 <= g < |r'.flights|
      ensures FlightOwned(r'.issued, r'.flights[g])
    {
      if g == f {
        OwnsFresh(r.issued, issue, r'.flights[g].cert);
      } else {
        assert FlightOwned(r'.issued, r.flights[g]);
      }
    }
  }

  lemma OtherProceedKeepsInvariant(r: SplitWorld, f: nat)
    requires RaceInvariant(r) && f < |r.flights| && !r.flights[f].Numbering?
    ensures RaceInvariant(Proceeded(r, f))
  {
    var r' := Proceeded(r, f);
    assert r'.world.counters == r.world.counters && r'.issued == r.issued;
    assert forall s: Series :: LastSeq(r'.world, s) == LastSeq(r.world, s);
    ProceedKeepsOwners(r, f);
  }

  lemma ProceedKeepsOwners(r: SplitWorld, f: nat)
    requires TablesOwned(r.world, r.issued) && FlightsOwned(r.flights, r.issued)
    requires f < |r.flights| && !r.flights[f].Numbering?
    ensures TablesOwned(Proceeded(r, f).world, r.issued) && FlightsOwned(Proceeded(r, f).flights, r.issued)
  {
    assert FlightOwned(r.issued, r.flights[f]);
    if r.flights[f].Deciding? {
      var Deciding(id, cert, event, _, _) := r.flights[f];
      assert Owned(r.issued, id, cert.(currentStatus := EdgeOf(event).to));
    }
  }

  lemma {:induction false} InvariantHolds(races: seq<SplitWorld>, steps: seq<SplitStep>, i: nat)
    requires SplitTrace(races, steps) && i <= |steps|
    ensures RaceInvariant(races[i])
  {
    if i > 0 {
      assert SplitLinked(races, steps, i - 1);
      InvariantHolds(races, steps, i - 1);
      var r := races[i - 1];
      match steps[i - 1]
      case Whole(c) =>
        if c.Granting? && StandsAt(r.world, c.id, UnderReview) {
          GrantKeepsInvariant(r, c);
        } else {
          OtherCallKeepsInvariant(r, c);
        }
      case Begin(c) => BeginKeepsInvariant(r, c);
      case Proceed(f) =>
        if f < |r.flights| && r.flights[f].Numbering? {
          NumberingKeepsInvariant(r, f);
        } else if f < |r.flights| {
          OtherProceedKeepsInvariant(r, f);
        }
      case Look(_) =>
      case Store(_, _, _) =>
    }
  }

  /**
   * Over every interleaving the numbers drawn in a series are exactly 1..last_seq: each of them was drawn, and no two
   * draws gave the same one.
   */
  lemma NumbersAreDense(races: seq<SplitWorld>, steps: seq<SplitStep>, i: nat, s: Series, q: nat)
    requires SplitTrace(races, steps) && i <= |steps|
    ensures Drawn(races[i].issued, s, q) <==> 1 <= q <= LastSeq(races[i].world, s)
    ensures forall j, k | 0 <= j < k < |races[i].issued| :: races[i].issued[j].number != races[i].issued[k].number
  {
    InvariantHolds(races, steps, i);
  }

  lemma SameNumberSameDraw(w: World, issued: seq<Issue>, j: nat, k: nat)
    requires IssuedInOrder(w, issued) && j < |issued| && k < |issued|
    requires Print(issued[j].number) == Print(issued[k].number)
    ensures j == k
  {
    Injective(issued[j].number, issued[k].number);
  }

  lemma {:induction false} DrawsStay(races: seq<SplitWorld>, steps: seq<SplitStep>, i: nat, j: nat)
    requires SplitTrace(races, steps) && i <= j <= |steps|
    ensures races[i].issued <= races[j].issued
    decreases j
  {
    if i < j {
      assert SplitLinked(races, steps, j - 1);
      DrawsStay(races, steps, i, j - 1);
      StepKeepsDraws(races[j - 1], steps[j - 1]);
    }
  }

  lemma StepKeepsDraws(r: SplitWorld, step: SplitStep)
    ensures r.issued <= NextSplit(r, step).issued
  {
  }

  predicate Carries(w: World, id: Id, text: string) {
    id < |w.certifications| && w.certifications[id].certificationNumber == Some(text)
  }

  /**
   * Over every interleaving a number carried by one certification at any time is never carried by another, at the same
   * time or later: the UNIQUE column is never violated and no number is used again.
   */
  lemma NumbersAreUnique(races: seq<SplitWorld>, steps: seq<SplitStep>, i: nat, j: nat, a: Id, b: Id, text: string)
    requires SplitTrace(races, steps) && i <= j <= |steps|
    requires Carries(races[i].world, a, text) && Carries(races[j].world, b, text)
    ensures a == b
  {
    InvariantHolds(races, steps, i);
    InvariantHolds(races, steps, j);
    DrawsStay(races, steps, i, j);
    var issued := races[j].issued;
    assert Owned(races[i].issued, a, races[i].world.certifications[a]);
    assert Owned(issued, b, races[j].world.certifications[b]);
    var k :| 0 <= k < |races[i].issued| && races[i].issued[k].id == a && Print(races[i].issued[k].number) == text;
    assert issued[k] == races[i].issued[k];
    var l :| 0 <= l < |issued| && issued[l].id == b && Print(issued[l].number) == text;
    SameNumberSameDraw(races[j].world, issued, k, l);
  }

  /** The same for runs of atomic calls of all services. */
  lemma NumbersAreUniqueInRuns(worlds: seq<World>, calls: seq<Call>, i: nat, j: nat, a: Id, b: Id, text: string)
    requires Trace(worlds, calls) && i <= j <= |calls|
    requires Carries(worlds[i], a, text) && Carries(worlds[j], b, text)
    ensures a == b
  {
    var races, steps := AtomicRunIsSplit(worlds, calls);
    NumbersAreUnique(races, steps, i, j, a, b, text);
  }

  // ----- Width: the text always fits its column -----

  predicate RegionFits(terms: Terms) {
    |terms.regionCode| <= 50
  }

  predicate FlightFits(f: Flight) {
    && (f.Numbering? || f.Deciding? ==> RegionFits(f.cert.terms))
    && (f.Superseding? || f.Drafting? ==> RegionFits(f.terms))
  }

  predicate RegionsFit(r: SplitWorld) {
    && (forall id | 0 <= id < |r.world.certifications| :: RegionFits(r.world.certifications[id].terms))
    && (forall f | 0 <= f < |r.flights| :: FlightFits(r.flights[f]))
    && (forall i | 0 <= i < |r.issued| :: |r.issued[i].number.region| <= 50)
  }

  lemma WholeKeepsRegions(r: SplitWorld, c: Call)
    requires RegionsFit(r)
    ensures RegionsFit(NextSplit(r, Whole(c)))
  {
    var w' := Step(r.world, c);
    forall id | 0 <= id < |w'.certifications|
      ensures RegionFits(w'.certifications[id].terms)
    {
      if id < |r.world.certifications| {
        TermsStay(r.world, c, id);
      } else {
        NewTermsFit(r.world, c, id);
      }
    }
  }

  lemma ProceedKeepsRegions(r: SplitWorld, f: nat)
    requires RegionsFit(r) && f < |r.flights|
    ensures RegionsFit(Proceeded(r, f))
  {
    assert FlightFits(r.flights[f]);
  }

  lemma {:induction false} RegionsAlwaysFit(races: seq<SplitWorld>, steps: seq<SplitStep>, i: nat)
    requires SplitTrace(races, steps) && i <= |steps|
    ensures RegionsFit(races[i])
  {
    if i > 0 {
      assert SplitLinked(races, steps, i - 1);
      RegionsAlwaysFit(races, steps, i - 1);
      match steps[i - 1]
      case Whole(c) => WholeKeepsRegions(races[i - 1], c);
      case Begin(c) =>
        if Begun(races[i - 1].world, c).Some? {
          BegunHolds(races[i - 1].world, c);
        }
      case Proceed(f) =>
        if f < |races[i - 1].flights| {
          ProceedKeepsRegions(races[i - 1], f);
        }
      case Look(_) =>
      case Store(_, _, _) =>
    }
  }

  /** While years have four digits and counters stay in 32 bits, every number carried fits VARCHAR(80). */
  lemma NumbersFit(races: seq<SplitWorld>, steps: seq<SplitStep>, i: nat, id: Id)
    requires SplitTrace(races, steps) && i <= |steps|
    requires forall k | 0 <= k < |races[i].issued| ::
               races[i].issued[k].number.year <= 9999 && races[i].issued[k].number.sequence < 0x8000_0000
    requires id < |races[i].world.certifications| && races[i].world.certifications[id].certificationNumber.Some?
    ensures |races[i].world.certifications[id].certificationNumber.value| <= 80
  {
    var r := races[i];
    InvariantHolds(races, steps, i);
    RegionsAlwaysFit(races, steps, i);
    var text := r.world.certifications[id].certificationNumber.value;
    assert Owned(r.issued, id, r.world.certifications[id]);
    var k :| 0 <= k < |r.issued| && r.issued[k].id == id && Print(r.issued[k].number) == text;
    FitsColumn(r.issued[k].number);
  }

  // ----- Fields under overlapping commits -----

  /** The entity a flight will save agrees with the status it will save. */
  predicate FlightAgrees(f: Flight) {
    && (f.Numbering? ==> f.cert.currentStatus == UnderReview && FieldsAgree(f.cert))
    && (f.Deciding? ==> FieldsAgree(f.cert.(currentStatus := EdgeOf(f.event).to)))
  }

  predicate FlightsAgree(flights: seq<Flight>) {
    forall f | 0 <= f < |flights| :: FlightAgrees(flights[f])
  }

  lemma BegunAgrees(w: World, c: Call)
    requires AllFieldsAgree(w) && Begun(w, c).Some?
    ensures FlightAgrees(Begun(w, c).value)
  {
    BegunHolds(w, c);
    assert FieldsAgree(w.certifications[Begun(w, c).value.id]);
  }

  lemma ProceedKeepsFields(sw: SplitWorld, f: nat)
    requires AllFieldsAgree(sw.world) && FlightsAgree(sw.flights) && f < |sw.flights|
    ensures AllFieldsAgree(Proceeded(sw, f).world) && FlightsAgree(Proceeded(sw, f).flights)
  {
    assert FlightAgrees(sw.flights[f]);
    assert FlightAgrees(Proceeded(sw, f).flights[f]);
  }

  /**
   * Field and status agreement survives overlapping requests of every kind: a commit saves the whole entity, and that
   * agreed when it was read.
   */
  lemma {:induction false} FieldsAgreeUnderOverlap(races: seq<SplitWorld>, steps: seq<SplitStep>, i: nat)
    requires SplitTrace(races, steps) && AllGuarded(steps) && i <= |steps|
    ensures AllFieldsAgree(races[i].world) && FlightsAgree(races[i].flights)
  {
    if i > 0 {
      assert SplitLinked(races, steps, i - 1);
      FieldsAgreeUnderOverlap(races, steps, i - 1);
      var sw := races[i - 1];
      assert Guarded(steps[i - 1]);
      match steps[i - 1]
      case Whole(c) => StepKeepsFields(sw.world, c);
      case Begin(c) =>
        if Begun(sw.world, c).Some? {
          BegunAgrees(sw.world, c);
        }
      case Proceed(f) =>
        if f < |sw.flights| {
          ProceedKeepsFields(sw, f);
        }
      case Look(_) =>
      case Store(_, _, _) =>
    }
  }

  // ----- The ledger under overlapping commits -----

  /**
   * Committing an entity keeps the ledger's chain exactly when the row still has the status it was read with; that is
   * the check the transaction does not make.
   */
  lemma CommitKeepsReplayIff(r: SplitWorld, f: nat)
    requires Replays(r.world.certifications, r.world.ledger)
    requires f < |r.flights| && r.flights[f].Deciding? && r.flights[f].id < |r.world.certifications|
    ensures var w := Proceeded(r, f).world;
            Replays(w.certifications, w.ledger) <==>
            r.world.certifications[r.flights[f].id].currentStatus == r.flights[f].cert.currentStatus
  {
    var Deciding(id, cert, event, _, _) := r.flights[f];
    var w, w' := r.world, Proceeded(r, f).world;
    var row := w'.ledger[|w.ledger|];
    assert w'.ledger == w.ledger + [row];
    forall other | 0 <= other < |w.certifications|
      ensures Replay(EdgesOf(w'.ledger, other), Draft) == Some(w'.certifications[other].currentStatus) <==>
              other != id || w.certifications[id].currentStatus == cert.currentStatus
    {
      assert Replay(EdgesOf(w.ledger, other), Draft) == Some(w.certifications[other].currentStatus);
      EdgesSnoc(w.ledger, row, other);
      ReplaySnoc(EdgesOf(w.ledger, id), row.edge, Draft);
    }
    if Replays(w'.certifications, w'.ledger) {
      assert Replay(EdgesOf(w'.ledger, id), Draft) == Some(w'.certifications[id].currentStatus);
    }
  }

  /** Two grants of one certification, both read while UNDER_REVIEW and both numbered, are about to be committed. */
  predicate TwoNumbered(r: SplitWorld, id: Id) {
    && id < |r.world.certifications| && |r.issued| == 2 && |r.flights| == 2
    && (forall f | 0 <= f < 2 ::
          && r.flights[f].Deciding? && r.flights[f].id == id && r.flights[f].event == DecisionGranted
          && r.flights[f].cert.currentStatus == UnderReview && r.flights[f].cert.grant.Some?
          && r.flights[f].payload.Award?
          && r.flights[f].cert.certificationNumber == Some(r.flights[f].payload.number)
          && r.flights[f].payload.number == Print(r.issued[f].number)
          && r.flights[f].cert.grant.value.validUntil == r.flights[f].payload.validUntil)
  }

  function TwoDrawSteps(first: Call, second: Call): seq<SplitStep> {
    [Begin(first), Begin(second), Proceed(0), Proceed(1)]
  }

  /** Two requests read the same certification and draw two numbers. */
  lemma TwoDraws(w: World, first: Call, second: Call)
    requires first.Granting? && second.Granting? && first.id == second.id && StandsAt(w, first.id, UnderReview)
    ensures var r := Run(Unsplit(w), TwoDrawSteps(first, second));
            && r.world == w.(counters := r.world.counters) && r.scans == []
            && TwoNumbered(r, first.id) && r.issued[0].number != r.issued[1].number
            && r.flights[0].cert.grant.value.validUntil == first.validUntil
            && r.flights[1].cert.grant.value.validUntil == second.validUntil
  {
    var id, cert := first.id, w.certifications[first.id];
    RunFour(Unsplit(w), Begin(first), Begin(second), Proceed(0), Proceed(1));
    var r2 := NextSplit(NextSplit(Unsplit(w), Begin(first)), Begin(second));
    assert r2 == SplitWorld(w, [Begun(w, first).value, Begun(w, second).value], [], []);
    var s, t := SeriesOf(cert.terms, first.year), SeriesOf(cert.terms, second.year);
    var r3 := NextSplit(r2, Proceed(0));
    assert r3.issued == [Draw(w, id, cert.terms, first.year)];
    IncrementCounts(w, s, t);
    var r4 := NextSplit(r3, Proceed(1));
    assert r4.issued == r3.issued + [Draw(r3.world, id, cert.terms, second.year)];
  }

  /** Committing a grant appends its row whatever the certification's present status is. */
  lemma GrantCommits(r: SplitWorld, f: nat)
    requires f < |r.flights| && r.flights[f].Deciding? && r.flights[f].event == DecisionGranted
    requires r.flights[f].id < |r.world.certifications| && r.flights[f].cert.currentStatus == UnderReview
    ensures var id, r' := r.flights[f].id, NextSplit(r, Proceed(f));
            && r'.world == r.world.(certifications := r'.world.certifications, ledger := r'.world.ledger)
            && r'.flights == r.flights[f := Issuing(id)] && r'.issued == r.issued && r'.scans == r.scans
            && r'.world.certifications == r.world.certifications[id := r.flights[f].cert.(currentStatus := Granted)]
            && EdgesOf(r'.world.ledger, id) == EdgesOf(r.world.ledger, id) + [EdgeOf(DecisionGranted)]
  {
    var r' := NextSplit(r, Proceed(f));
    EdgesSnoc(r.world.ledger, r'.world.ledger[|r.world.ledger|], r.flights[f].id);
  }

  lemma TwoGrantRowsDoNotReplay(edges: seq<Edge>)
    ensures Replay(edges + [EdgeOf(DecisionGranted)] + [EdgeOf(DecisionGranted)], Draft) == None
  {
    var row := EdgeOf(DecisionGranted);
    ReplaySnoc(edges, row, Draft);
    ReplaySnoc(edges + [row], row, Draft);
  }

  /**
   * Two overlapping grants of one certification both succeed: the second overwrites the first one's number, which is
   * then carried by nobody, and the ledger gets two DECISION_GRANTED rows and no longer replays.
   */
  lemma TwoGrantsOverlap(w: World, first: Call, second: Call)
    requires first.Granting? && second.Granting? && first.id == second.id && StandsAt(w, first.id, UnderReview)
    ensures var id, r := first.id, Run(Unsplit(w), TwoDrawSteps(first, second) + [Proceed(0)] + [Proceed(1)]);
            && EdgesOf(r.world.ledger, id) ==
               EdgesOf(w.ledger, id) + [EdgeOf(DecisionGranted)] + [EdgeOf(DecisionGranted)]
            && Replay(EdgesOf(r.world.ledger, id), Draft) == None
            && |r.issued| == 2 && r.issued[0].number != r.issued[1].number
            && Carries(r.world, id, Print(r.issued[1].number))
  {
    var steps := TwoDrawSteps(first, second);
    TwoDraws(w, first, second);
    var drawn := Run(Unsplit(w), steps);
    RunConcat(Unsplit(w), steps + [Proceed(0)], [Proceed(1)]);
    RunConcat(Unsplit(w), steps, [Proceed(0)]);
    RunOne(drawn, Proceed(0));
    GrantCommits(drawn, 0);
    var once := NextSplit(drawn, Proceed(0));
    RunOne(once, Proceed(1));
    GrantCommits(once, 1);
    TwoGrantRowsDoNotReplay(EdgesOf(w.ledger, first.id));
  }
}

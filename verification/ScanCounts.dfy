/** Scan counters and scan rows against the scans that produced them. */
module ScanCounts {
  import opened Text
  import Lifecycle
  import opened Registry
  import opened Changes
  import Decisions
  import opened Staleness

  /** c scans s, misses the cache and is counted. */
  predicate MissedBy(w: World, c: Call, s: Signature) {
    c.Verifying? && c.signature == s && Misses(w, s)
  }

  /** The n-th call is a scan of s that misses the cache and is counted. */
  predicate CountedMiss(worlds: seq<World>, calls: seq<Call>, n: nat, s: Signature)
    requires n < |calls| && n < |worlds|
  {
    MissedBy(worlds[n], calls[n], s)
  }

  /** Counted misses before n answered valid. */
  function ValidMisses(worlds: seq<World>, calls: seq<Call>, n: nat, s: Signature): nat
    requires n <= |calls| && n <= |worlds|
  {
    if n == 0 then 0
    else
      ValidMisses(worlds, calls, n - 1, s) +
      if CountedMiss(worlds, calls, n - 1, s) && Lookup(worlds[n - 1], s).valid then 1 else 0
  }

  /** Counted misses before n answered "renewed". */
  function RenewedMisses(worlds: seq<World>, calls: seq<Call>, n: nat, s: Signature): nat
    requires n <= |calls| && n <= |worlds|
  {
    if n == 0 then 0
    else
      RenewedMisses(worlds, calls, n - 1, s) +
      if CountedMiss(worlds, calls, n - 1, s) && Lookup(worlds[n - 1], s).message.Superseded? then 1 else 0
  }

  /** Valid misses before n whose scan row was written. */
  function LoggedMisses(worlds: seq<World>, calls: seq<Call>, n: nat, s: Signature): (k: nat)
    requires n <= |calls| && n <= |worlds|
    ensures k <= ValidMisses(worlds, calls, n, s)
    ensures (forall i | 0 <= i < n && calls[i].Verifying? :: calls[i].logged) ==> k == ValidMisses(worlds, calls, n, s)
  {
    if n == 0 then 0
    else
      LoggedMisses(worlds, calls, n - 1, s) +
      if CountedMiss(worlds, calls, n - 1, s) && Lookup(worlds[n - 1], s).valid && calls[n - 1].logged then 1 else 0
  }

  function ScansCount(w: World, s: Signature): nat {
    if s in w.qrCodes then w.qrCodes[s].scansCount else 0
  }

  /** Rows of qr_scan_event for one code. */
  function RowsFor(scans: seq<ScanEvent>, s: Signature): nat {
    if scans == [] then 0
    else RowsFor(scans[..|scans| - 1], s) + if scans[|scans| - 1].signature == s then 1 else 0
  }

  lemma RowsSnoc(scans: seq<ScanEvent>, e: ScanEvent, s: Signature)
    ensures RowsFor(scans + [e], s) == RowsFor(scans, s) + if e.signature == s then 1 else 0
  {
    assert (scans + [e])[..|scans|] == scans;
  }

  /** Calls other than scans leave every counter and every scan row alone; a new code starts at zero. */
  lemma QuietCounts(w: World, c: Call, s: Signature)
    requires !c.Verifying?
    ensures ScansCount(Step(w, c), s) == ScansCount(w, s) && Step(w, c).scans == w.scans
  {
    if c.Granting? {
      if Guard(w, c.id, Lifecycle.UnderReview).None? {
        var granted := GrantTransition(w, c.id, c.validFrom, c.validUntil, c.year, c.actor);
        assert granted.qrCodes == w.qrCodes && granted.scans == w.scans;
        GenerateKeepsCounts(granted, c.id, s);
      }
    } else if c.Generating? {
      GenerateKeepsCounts(w, c.id, s);
    } else if c.Revoking? {
      RevokeKeepsCounts(w, c.id, c.reason, c.actor, s);
    } else if IsSideCall(c) {
      SideCallsKeepTables(w, c);
    }
  }

  lemma RevokeKeepsCounts(w: World, id: Id, reason: string, actor: Actor, s: Signature)
    ensures var w' := RevokeCertification(w, id, reason, actor).world;
            ScansCount(w', s) == ScansCount(w, s) && w'.scans == w.scans
  {
  }

  lemma GenerateKeepsCounts(w: World, id: Id, s: Signature)
    ensures ScansCount(GenerateQrCode(w, id).world, s) == ScansCount(w, s)
    ensures GenerateQrCode(w, id).world.scans == w.scans
  {
  }

  lemma StepCounts(w: World, c: Call, s: Signature)
    ensures ScansCount(Step(w, c), s) == ScansCount(w, s) + if MissedBy(w, c, s) then 1 else 0
    ensures RowsFor(Step(w, c).scans, s) ==
            RowsFor(w.scans, s) + if MissedBy(w, c, s) && Lookup(w, s).valid && c.logged then 1 else 0
  {
    if c.Verifying? {
      RowsSnoc(w.scans, ScanEvent(c.signature, c.ip, w.now), s);
    } else {
      QuietCounts(w, c, s);
    }
  }

  /** A counted answer is either valid or "renewed". */
  lemma CountedKinds(w: World, s: Signature)
    requires Counted(Lookup(w, s))
    ensures Lookup(w, s).valid <==> !Lookup(w, s).message.Superseded?
  {
  }

  /**
   * Conservation: in every run a code's counter is the number of its cache-miss scans answered valid plus those
   * answered renewed, and its scan rows are the valid ones whose write succeeded.
   */
  lemma {:induction false} CountsConserved(worlds: seq<World>, calls: seq<Call>, n: nat, s: Signature)
    requires Trace(worlds, calls) && n <= |calls|
    ensures ScansCount(worlds[n], s) == ValidMisses(worlds, calls, n, s) + RenewedMisses(worlds, calls, n, s)
    ensures RowsFor(worlds[n].scans, s) == LoggedMisses(worlds, calls, n, s)
  {
    if n > 0 {
      assert Linked(worlds, calls, n - 1);
      CountsConserved(worlds, calls, n - 1, s);
      StepCounts(worlds[n - 1], calls[n - 1], s);
      if MissedBy(worlds[n - 1], calls[n - 1], s) {
        CountedKinds(worlds[n - 1], s);
      }
    }
  }

  // ----- Totals per certification -----

  /** COUNT(*) of getScanStats. */
  function TotalScans(scans: seq<ScanEvent>, id: Id): nat {
    if scans == [] then 0
    else TotalScans(scans[..|scans| - 1], id) + if scans[|scans| - 1].signature.certificationId == id then 1 else 0
  }

  function RowsOf(scans: seq<ScanEvent>, id: Id): set<int> {
    set i | 0 <= i < |scans| && scans[i].signature.certificationId == id
  }

  lemma RowsOfSnoc(scans: seq<ScanEvent>, id: Id)
    requires scans != []
    ensures var n := |scans| - 1;
            RowsOf(scans, id) ==
            RowsOf(scans[..n], id) + if scans[n].signature.certificationId == id then {n} else {}
  {
  }

  /** That is the number of scan rows of the certification's codes. */
  lemma {:induction false} TotalIsCardinality(scans: seq<ScanEvent>, id: Id)
    ensures TotalScans(scans, id) == |set i | 0 <= i < |scans| && scans[i].signature.certificationId == id|
  {
    assert RowsOf(scans, id) == set i | 0 <= i < |scans| && scans[i].signature.certificationId == id;
    if scans != [] {
      var front := scans[..|scans| - 1];
      TotalIsCardinality(front, id);
      assert RowsOf(front, id) == set i | 0 <= i < |front| && front[i].signature.certificationId == id;
      RowsOfSnoc(scans, id);
    }
  }

  ghost function CodesFor(w: World, id: Id): set<Signature> {
    set s | s in w.qrCodes && s.certificationId == id
  }

  ghost function SumCounts(w: World, codes: set<Signature>): nat {
    if codes == {} then 0
    else
      var s :| s in codes;
      ScansCount(w, s) + SumCounts(w, codes - {s})
  }

  /** Scan rows of a set of codes. */
  ghost function RowsIn(scans: seq<ScanEvent>, codes: set<Signature>): nat {
    if scans == [] then 0
    else RowsIn(scans[..|scans| - 1], codes) + if scans[|scans| - 1].signature in codes then 1 else 0
  }

  lemma {:induction false} RowsInSplit(scans: seq<ScanEvent>, codes: set<Signature>, s: Signature)
    requires s in codes
    ensures RowsIn(scans, codes) == RowsFor(scans, s) + RowsIn(scans, codes - {s})
  {
    if scans != [] {
      RowsInSplit(scans[..|scans| - 1], codes, s);
    }
  }

  lemma {:induction false} RowsInNone(scans: seq<ScanEvent>)
    ensures RowsIn(scans, {}) == 0
  {
    if scans != [] {
      RowsInNone(scans[..|scans| - 1]);
    }
  }

  lemma {:induction false} RowsBoundedByCounts(w: World, codes: set<Signature>)
    requires forall s | s in codes :: RowsFor(w.scans, s) <= ScansCount(w, s)
    ensures RowsIn(w.scans, codes) <= SumCounts(w, codes)
    decreases |codes|
  {
    if codes == {} {
      RowsInNone(w.scans);
    } else {
      var s :| s in codes && SumCounts(w, codes) == ScansCount(w, s) + SumCounts(w, codes - {s});
      RowsInSplit(w.scans, codes, s);
      RowsBoundedByCounts(w, codes - {s});
    }
  }

  lemma {:induction false} TotalIsRowsIn(scans: seq<ScanEvent>, codes: set<Signature>, id: Id)
    requires forall i | 0 <= i < |scans| :: scans[i].signature.certificationId == id <==> scans[i].signature in codes
    ensures TotalScans(scans, id) == RowsIn(scans, codes)
  {
    if scans != [] {
      TotalIsRowsIn(scans[..|scans| - 1], codes, id);
    }
  }

  lemma {:induction false} RowHasCode(scans: seq<ScanEvent>, i: nat)
    requires i < |scans|
    ensures RowsFor(scans, scans[i].signature) > 0
  {
    if i < |scans| - 1 {
      RowHasCode(scans[..|scans| - 1], i);
    }
  }

  /** The reported total never exceeds the sum of the counters of the certification's codes. */
  lemma TotalBoundedByCounters(worlds: seq<World>, calls: seq<Call>, n: nat, id: Id)
    requires Trace(worlds, calls) && n <= |calls|
    ensures TotalScans(worlds[n].scans, id) <= SumCounts(worlds[n], CodesFor(worlds[n], id))
  {
    var w, codes := worlds[n], CodesFor(worlds[n], id);
    forall s ensures RowsFor(w.scans, s) <= ScansCount(w, s) {
      CountsConserved(worlds, calls, n, s);
    }
    forall i | 0 <= i < |w.scans|
      ensures w.scans[i].signature.certificationId == id <==> w.scans[i].signature in codes
    {
      RowHasCode(w.scans, i);
    }
    TotalIsRowsIn(w.scans, codes, id);
    RowsBoundedByCounts(w, codes);
  }

  // ----- Spacing -----

  /** Some call in (i, j) took s out of the cache. */
  ghost predicate EvictedBetween(worlds: seq<World>, i: nat, j: nat, s: Signature)
    requires j < |worlds|
  {
    exists k :: i < k < j && s in worlds[k].cache && s !in worlds[k + 1].cache
  }

  /** An entry still there after a call is the old one or a fresh one. */
  lemma EntryNotOlder(worlds: seq<World>, calls: seq<Call>, n: nat, s: Signature, since: Time)
    requires Trace(worlds, calls) && n < |calls| && s in worlds[n].cache && s in worlds[n + 1].cache
    requires worlds[n].cache[s].storedAt >= since && worlds[n].now >= since
    ensures worlds[n + 1].cache[s].storedAt >= since
  {
    assert Linked(worlds, calls, n);
    CacheAfter(worlds[n], calls[n], s);
  }

  lemma {:induction false} EntryPersists(worlds: seq<World>, calls: seq<Call>, i: nat, j: nat, s: Signature)
    requires Trace(worlds, calls) && i < j <= |calls|
    requires CountedMiss(worlds, calls, i, s) && !EvictedBetween(worlds, i, j, s)
    ensures s in worlds[j].cache && worlds[j].cache[s].storedAt >= worlds[i].now
    decreases j
  {
    var k := j - 1;
    if i == k {
      assert Linked(worlds, calls, i);
    } else {
      EntryPersists(worlds, calls, i, k, s);
      Decisions.ClockIsMonotone(worlds, calls, i, k);
      EntryNotOlder(worlds, calls, k, s, worlds[i].now);
    }
  }

  /** Two counted scans of one code lie more than the TTL apart unless its entry was taken out in between. */
  lemma CountedScansAreSpaced(worlds: seq<World>, calls: seq<Call>, i: nat, j: nat, s: Signature)
    requires Trace(worlds, calls) && i < j < |calls|
    requires CountedMiss(worlds, calls, i, s) && CountedMiss(worlds, calls, j, s)
    ensures EvictedBetween(worlds, i, j, s) || worlds[j].now > worlds[i].now + 300_000
  {
    if !EvictedBetween(worlds, i, j, s) {
      EntryPersists(worlds, calls, i, j, s);
    }
  }
}

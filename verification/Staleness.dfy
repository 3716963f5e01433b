/** The verification cache against the cache-free lookup, with time. */
module Staleness {
  import opened Text
  import opened Lifecycle
  import opened Registry
  import opened Changes
  import opened Ledger
  import opened Decisions

  /** A scan that goes past the cache and gets an answer worth counting. */
  predicate Misses(w: World, s: Signature) {
    !Live(w, s) && Counted(Lookup(w, s))
  }

  /** The instant j of the run explains the answer a for signature s as seen at instant i. */
  predicate Explains(worlds: seq<World>, j: nat, i: nat, s: Signature, a: Verification)
    requires i < |worlds|
  {
    && j <= i
    && worlds[j].now <= worlds[i].now <= worlds[j].now + 300_000
    && Lookup(worlds[j], s) == a
  }

  /** Every entry was the lookup's own answer at the instant it was stored, and was worth counting. */
  ghost predicate EntryExplained(worlds: seq<World>, i: nat, s: Signature)
    requires i < |worlds| && s in worlds[i].cache
  {
    var e := worlds[i].cache[s];
    && Counted(e.answer)
    && exists j: nat :: j <= i && worlds[j].now == e.storedAt && Lookup(worlds[j], s) == e.answer
  }

  /** A call either leaves an entry alone, removes it, or stores the lookup's present answer. */
  lemma CacheAfter(w: World, c: Call, s: Signature)
    requires s in Step(w, c).cache
    ensures (s in w.cache && Step(w, c).cache[s] == w.cache[s]) ||
            (Step(w, c).cache[s] == CacheEntry(Lookup(w, s), w.now) && Counted(Lookup(w, s)))
  {
    match c
    case Verifying(t, ip, logged) =>
    case _ => CacheOnlyShrinks(w, c);
  }

  lemma CacheOnlyShrinks(w: World, c: Call)
    requires !c.Verifying?
    ensures Step(w, c).cache.Keys <= w.cache.Keys
    ensures forall s | s in Step(w, c).cache :: Step(w, c).cache[s] == w.cache[s]
  {
    if IsSideCall(c) {
      SideCallsKeepTables(w, c);
    }
  }

  lemma {:induction false} CacheExplained(worlds: seq<World>, calls: seq<Call>, i: nat, s: Signature)
    requires Trace(worlds, calls) && i <= |calls| && s in worlds[i].cache
    ensures EntryExplained(worlds, i, s)
  {
    if i > 0 {
      assert Linked(worlds, calls, i - 1);
      var w, c := worlds[i - 1], calls[i - 1];
      CacheAfter(w, c, s);
      if s in w.cache && worlds[i].cache[s] == w.cache[s] {
        CacheExplained(worlds, calls, i - 1, s);
        var j: nat :| j <= i - 1 && worlds[j].now == w.cache[s].storedAt && Lookup(worlds[j], s) == w.cache[s].answer;
      }
    }
  }

  lemma AnswerExplained(worlds: seq<World>, calls: seq<Call>, i: nat, s: Signature) returns (j: nat)
    requires Trace(worlds, calls) && i <= |calls|
    ensures Explains(worlds, j, i, s, Answer(worlds[i], s))
  {
    if Live(worlds[i], s) {
      CacheExplained(worlds, calls, i, s);
      var e := worlds[i].cache[s];
      j :| j <= i && worlds[j].now == e.storedAt && Lookup(worlds[j], s) == e.answer;
      ClockIsMonotone(worlds, calls, j, i);
    } else {
      j := i;
    }
  }

  /**
   * Bounded staleness: whatever is scanned, regenerated, revoked, renewed, inspected or lost from the cache, each
   * reply of verifyQrCode is what the tables alone answered for that signature at some instant of the last 300 000 ms.
   */
  lemma BoundedStaleness(worlds: seq<World>, calls: seq<Call>, i: nat, c: Call) returns (j: nat)
    requires Trace(worlds, calls) && i <= |calls| && c.Verifying?
    ensures Perform(worlds[i], c).reply.Verified?
    ensures Explains(worlds, j, i, c.signature, Perform(worlds[i], c).reply.answer)
  {
    j := AnswerExplained(worlds, calls, i, c.signature);
  }

  predicate HoldsGood(w: World, s: Signature) {
    && s in w.qrCodes && w.qrCodes[s].isActive && !IsExpired(w.qrCodes[s], w.now)
    && s.certificationId < |w.certifications|
    && w.certifications[s.certificationId].currentStatus == Granted
  }

  /** The lookup says valid exactly for an active, unexpired code of a GRANTED certification. */
  lemma ValidLookup(w: World, s: Signature)
    ensures Lookup(w, s).valid <==> HoldsGood(w, s)
    ensures Lookup(w, s).valid ==>
              Lookup(w, s).message == ValidAndActive &&
              Lookup(w, s).certification == Some(w.certifications[s.certificationId])
  {
  }

  /** "valid: true" means GRANTED, active and unexpired at some instant of the last five minutes. */
  lemma ValidMeansRecentlyGood(worlds: seq<World>, calls: seq<Call>, i: nat, s: Signature) returns (j: nat)
    requires Trace(worlds, calls) && i <= |calls| && Answer(worlds[i], s).valid
    ensures Explains(worlds, j, i, s, Answer(worlds[i], s)) && HoldsGood(worlds[j], s)
  {
    j := AnswerExplained(worlds, calls, i, s);
    ValidLookup(worlds[j], s);
  }

  /** Regeneration or not, no code of a certification verifies later than the TTL after its revocation. */
  lemma RevokedWithinTtl(worlds: seq<World>, calls: seq<Call>, k: nat, i: nat, s: Signature)
    requires Trace(worlds, calls) && LedgerOnly(calls) && k <= i <= |calls|
    requires s.certificationId < |worlds[k].certifications|
    requires worlds[k].certifications[s.certificationId].currentStatus == Revoked
    requires worlds[i].now > worlds[k].now + 300_000
    ensures !Answer(worlds[i], s).valid
  {
    if Answer(worlds[i], s).valid {
      var j := ValidMeansRecentlyGood(worlds, calls, i, s);
      if j < k {
        ClockIsMonotone(worlds, calls, j, k);
      } else {
        RevocationIsFinal(worlds, calls, k, j, s.certificationId);
      }
    }
  }

  lemma {:induction false} EdgesGrow(a: seq<LedgerRow>, b: seq<LedgerRow>, id: Id)
    requires a <= b
    ensures EdgesOf(a, id) <= EdgesOf(b, id)
    decreases |b|
  {
    if a != b {
      EdgesGrow(a, b[..|b| - 1], id);
    }
  }

  /**
   * End to end: in CertificationService runs a "valid: true" answer shows a certification with a number, whose
   * ledger now begins with the nine events from REQUEST_SUBMITTED to DECISION_GRANTED in order.
   */
  lemma ValidIsBackedByTheChain(worlds: seq<World>, calls: seq<Call>, i: nat, s: Signature)
    requires Trace(worlds, calls) && LedgerOnly(calls) && i <= |calls| && Answer(worlds[i], s).valid
    ensures Answer(worlds[i], s).certification.Some?
    ensures Answer(worlds[i], s).certification.value.certificationNumber.Some?
    ensures GrantChain() <= Events(EdgesOf(worlds[i].ledger, s.certificationId))
  {
    var j := ValidMeansRecentlyGood(worlds, calls, i, s);
    var id := s.certificationId;
    ValidLookup(worlds[j], s);
    FieldsAlwaysAgree(worlds, calls, j);
    assert FieldsAgree(worlds[j].certifications[id]);
    LedgerIsHistory(worlds, calls, j, id);
    HistoryOfGranted();
    AppendOnly(worlds, calls, j, i);
    EdgesGrow(worlds[j].ledger, worlds[i].ledger, id);
  }
}

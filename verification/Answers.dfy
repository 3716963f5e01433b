/** What verification answers in each case, in terms of rows, status and clock, and what every call replies. */
module Answers {
  import opened Text
  import opened Lifecycle
  import opened Registry
  import opened Changes
  import opened Renewals
  import opened Staleness

  // ----- Verification -----

  /** The signature has an active code. */
  predicate Known(w: World, s: Signature) {
    s in w.qrCodes && w.qrCodes[s].isActive
  }

  predicate PastExpiry(w: World, s: Signature)
    requires s in w.qrCodes
  {
    w.qrCodes[s].expiresAt.Some? && w.qrCodes[s].expiresAt.value < w.now
  }

  /** The signature has an active code whose expiry, if it has one, has not passed. */
  predicate Good(w: World, s: Signature) {
    Known(w, s) && !PastExpiry(w, s)
  }

  /** j is the oldest certification that renews id. */
  predicate FirstRenewal(certs: seq<Certification>, j: Id, id: Id) {
    Renews(certs, j, id) && forall k | 0 <= k < j :: !Renews(certs, k, id)
  }

  /** The number a superseded answer shows: the oldest renewal's, or none while there is no renewal. */
  ghost predicate ShowsRenewal(certs: seq<Certification>, id: Id, number: Option<string>) {
    && (forall j: Id | FirstRenewal(certs, j, id) :: number == certs[j].certificationNumber)
    && ((forall j | 0 <= j < |certs| :: !Renews(certs, j, id)) ==> number == None)
  }

  /** Each message is given exactly in its case. */
  lemma MessageIff(w: World, s: Signature)
    ensures var a, id := Lookup(w, s), s.certificationId;
            && (a.message == NotFoundOrInactive <==> !Known(w, s))
            && (a.message == Expired <==> Known(w, s) && PastExpiry(w, s))
            && (a.message == CertificationMissing <==> Good(w, s) && id >= |w.certifications|)
            && (a.message.Superseded? <==> Good(w, s) && StandsAt(w, id, Renewed))
            && (a.message == ValidAndActive <==> Good(w, s) && StandsAt(w, id, Granted))
            && (forall status ::
                  a.message == NotActive(status) <==>
                  Good(w, s) && StandsAt(w, id, status) && status != Renewed && status != Granted)
  {
  }

  /** What comes with the message: valid or not, the certification, the code as counted, the renewal's number. */
  lemma AnswerSays(w: World, s: Signature)
    ensures var a, id := Lookup(w, s), s.certificationId;
            && (a.valid <==> a.message == ValidAndActive)
            && (a.certification.Some? <==> Good(w, s) && id < |w.certifications|)
            && (a.certification.Some? ==> a.certification == Some(w.certifications[id]))
            && (a.qrCode.Some? <==> Known(w, s))
            && (a.qrCode.Some? ==>
                  var counted := a.message.Superseded? || a.message == ValidAndActive;
                  a.qrCode.value == QrCode(true, w.qrCodes[s].scansCount + if counted then 1 else 0,
                                           w.qrCodes[s].expiresAt))
            && (if a.message.Superseded? then
                  a.message.successor == a.newCertificationNumber &&
                  ShowsRenewal(w.certifications, id, a.newCertificationNumber)
                else a.newCertificationNumber == None)
  {
    var certs, id := w.certifications, s.certificationId;
    var found := Successor(certs, id, 0);
    forall j: Id | FirstRenewal(certs, j, id)
      ensures found == Some(j)
    {
      assert Renews(certs, j, id);
      forall k | 0 <= k < j
        ensures certs[k].renewedFromId != Some(id)
      {
        assert !Renews(certs, k, id);
      }
    }
    if found.Some? {
      assert Renews(certs, found.value, id);
    }
  }

  /**
   * In CertificationService runs the scan of a renewed certification's code, unless answered from the cache, shows the
   * number of the one certification that renews it - none until that is granted.
   */
  lemma RenewedShowsSuccessor(worlds: seq<World>, calls: seq<Call>, i: nat, c: Call, j: Id)
    requires Trace(worlds, calls) && LedgerOnly(calls) && i <= |calls| && c.Verifying?
    requires !Live(worlds[i], c.signature) && Good(worlds[i], c.signature)
    requires StandsAt(worlds[i], c.signature.certificationId, Renewed)
    requires Renews(worlds[i].certifications, j, c.signature.certificationId)
    ensures var reply, number := Perform(worlds[i], c).reply, worlds[i].certifications[j].certificationNumber;
            && reply.Verified? && !reply.answer.valid
            && reply.answer.newCertificationNumber == number && reply.answer.message == Superseded(number)
  {
    var w, id := worlds[i], c.signature.certificationId;
    LinksAlwaysSound(worlds, calls, i);
    forall k | 0 <= k < j
      ensures !Renews(w.certifications, k, id)
    {
      assert w.certifications[j].renewedFromId == Some(id);
    }
    assert FirstRenewal(w.certifications, j, id);
    MessageIff(w, c.signature);
    AnswerSays(w, c.signature);
  }

  /** An entry answers for 300 000 ms from the instant it was stored, that instant and the last one included. */
  lemma CachedFor(w: World, c: Call)
    requires c.Verifying? && c.signature in w.cache && w.cache[c.signature].storedAt <= w.now
    ensures w.now - w.cache[c.signature].storedAt <= 300_000 ==>
              Perform(w, c) == Effect(w, Verified(w.cache[c.signature].answer))
    ensures w.now - w.cache[c.signature].storedAt > 300_000 ==>
              Perform(w, c).reply == Verified(Lookup(w, c.signature))
  {
  }

  /**
   * All that a scan writes: past the cache, for a good code of a GRANTED or RENEWED certification, one more on the
   * counter and the answer in the cache; a scan row only for GRANTED.
   */
  lemma ScanWrites(w: World, c: Call)
    requires c.Verifying?
    ensures var s, id := c.signature, c.signature.certificationId;
            Step(w, c) ==
            if !Live(w, s) && Good(w, s) && (StandsAt(w, id, Granted) || StandsAt(w, id, Renewed)) then
              w.(qrCodes := w.qrCodes[s := QrCode(true, w.qrCodes[s].scansCount + 1, w.qrCodes[s].expiresAt)],
                 cache := w.cache[s := CacheEntry(Lookup(w, s), w.now)],
                 scans := if StandsAt(w, id, Granted) && c.logged then w.scans + [ScanEvent(s, c.ip, w.now)]
                          else w.scans)
            else w
  {
    MessageIff(w, c.signature);
  }

  /** A generated code is active, unscanned and expires with the validity; the certification's others go inactive. */
  lemma CodeIssued(w: World, id: Id)
    requires id < |w.certifications|
    ensures var w', new_ := GenerateQrCode(w, id).world, Signature(id, w.now);
            && w' == w.(qrCodes := w'.qrCodes) && w'.qrCodes.Keys == w.qrCodes.Keys + {new_}
            && (forall s | s in w.qrCodes ::
                  w'.qrCodes[s] ==
                  if s.certificationId == id then QrCode(false, w.qrCodes[s].scansCount, w.qrCodes[s].expiresAt)
                  else w.qrCodes[s])
            && (new_ !in w.qrCodes ==>
                  var grant := w.certifications[id].grant;
                  w'.qrCodes[new_] == QrCode(true, 0, if grant.Some? then Some(grant.value.validUntil) else None))
  {
  }

  // ----- Replies -----

  /** The certification a transition call is about and the status it demands. */
  function Demand(c: Call): Option<(Id, Status)> {
    match c
    case Advanced(id, stage, _) => Some((id, Awaited(stage)))
    case Granting(id, _, _, _, _) => Some((id, UnderReview))
    case Denying(id, _, _) => Some((id, UnderReview))
    case Revoking(id, _, _) => Some((id, Granted))
    case Renewing(id, _) => Some((id, Granted))
    case _ => None
  }

  /** A transition is refused exactly for a missing certification or a wrong status, says which, and changes nothing. */
  lemma RefusedIff(w: World, c: Call)
    requires Demand(c).Some?
    ensures var (id, expected) := Demand(c).value;
            var reply := Perform(w, c).reply;
            && (reply == Failed(NotFound) <==> id >= |w.certifications|)
            && (forall a, b ::
                  reply == Failed(InvalidTransition(a, b)) <==>
                  StandsAt(w, id, a) && a != expected && b == expected)
            && (!StandsAt(w, id, expected) ==> Step(w, c) == w)
  {
  }

  /** An accepted transition replies the certification; a renewal its new draft; a grant may fail on its code. */
  lemma AcceptedReply(w: World, c: Call)
    requires Demand(c).Some? && StandsAt(w, Demand(c).value.0, Demand(c).value.1)
    ensures Perform(w, c).reply ==
            if c.Renewing? then Row(|w.certifications|)
            else if c.Granting? && Signature(c.id, w.now) in w.qrCodes then Failed(DuplicateSignature)
            else Row(Demand(c).value.0)
  {
  }

  /** Requests, codes, inspections and documents: the new or changed row, or the one reason for a refusal. */
  lemma OtherReplies(w: World, c: Call)
    ensures c.Request? ==>
              Perform(w, c).reply ==
              if |c.dto.cooperativeName| > 200 || |c.dto.productTypeCode| > 50 || |c.dto.regionCode| > 50
              then Failed(ColumnOverflow) else Row(|w.certifications|)
    ensures c.Generating? ==>
              Perform(w, c).reply ==
              if c.id >= |w.certifications| then Failed(NotFound)
              else if Signature(c.id, w.now) in w.qrCodes then Failed(DuplicateSignature) else Row(c.id)
    ensures c.Scheduling? ==>
              Perform(w, c).reply ==
              if c.schedule.certificationId >= |w.certifications| then Failed(NotFound) else Row(|w.inspections|)
    ensures c.Assigning? ==>
              Perform(w, c).reply ==
              if c.id >= |w.inspections| then Failed(NotFound)
              else if w.inspections[c.id].status in {Completed, Cancelled} then Failed(AlreadyClosed) else Row(c.id)
    ensures c.Exporting? ==>
              Perform(w, c).reply == if StandsAt(w, c.id, Granted) then Row(|w.documents|) else Failed(NotGranted)
    ensures c.Referencing? || c.Approving? ==>
              Perform(w, c).reply == if c.id < |w.documents| then Row(c.id) else Failed(NotFound)
  {
  }

  /** Completing and filing: the report or the inspection, or why the inspection cannot be completed. */
  lemma CompletionReplies(w: World, c: Call)
    requires c.Completing? || c.Filing?
    ensures Perform(w, c).reply ==
            if c.id >= |w.inspections| then Failed(NotFound)
            else if w.inspections[c.id].status !in {Scheduled, InProgress}
            then Failed(InvalidInspectionStatus(w.inspections[c.id].status))
            else Row(if c.Completing? then |w.reports| else c.id)
  {
  }

  /** Of the cached answers an eviction takes out the active code's and no other. */
  lemma EvictionOnly(w: World, id: Id, s: Signature)
    ensures s in w.cache && s !in EvictQrCache(w, id).cache ==> ActiveFor(w.qrCodes, id, s)
    ensures s in EvictQrCache(w, id).cache ==> s in w.cache && EvictQrCache(w, id).cache[s] == w.cache[s]
  {
  }
}

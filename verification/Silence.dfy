/**
 * What can still make a certification verify while calls overlap, and that without any of it nothing that follows can.
 */
module Silence {
  import opened Text
  import opened Lifecycle
  import opened CertificateNumber
  import opened Registry
  import opened Changes
  import opened Ledger
  import opened Decisions
  import opened QrActivity
  import opened Staleness
  import opened SplitCalls

  // ----- Ways back to a valid answer -----

  /** DENIED, REVOKED and RENEWED have no transition out. */
  predicate Final(s: Status) {
    s == Denied || s == Revoked || s == Renewed
  }

  /** From here the ordinary steps lead to a grant. */
  predicate Climbable(s: Status) {
    !Final(s) && s != Granted
  }

  /** A transition of the certification that has read it and not yet committed. */
  predicate IsPending(f: Flight, id: Id) {
    (f.Numbering? || f.Deciding?) && f.id == id
  }

  predicate Grants(f: Flight, id: Id) {
    IsPending(f, id) && (f.Numbering? || f.event == DecisionGranted)
  }

  /** Its commit puts the certification back before UNDER_REVIEW's decision. */
  predicate Climbs(f: Flight, id: Id) {
    f.Deciding? && f.id == id && Climbable(EdgeOf(f.event).to)
  }

  predicate GrantInFlight(sw: SplitWorld, id: Id) {
    exists f | 0 <= f < |sw.flights| :: Grants(sw.flights[f], id)
  }

  predicate ClimbInFlight(sw: SplitWorld, id: Id) {
    exists f | 0 <= f < |sw.flights| :: Climbs(sw.flights[f], id)
  }

  /** An expiry instant that has not passed at t; no expiry never does. */
  predicate Lasts(expiry: Option<Time>, t: Time) {
    expiry.Some? ==> t <= expiry.value
  }

  /** The expiry codes get once the flight has committed. */
  function PendingExpiry(f: Flight): Option<Time>
    requires f.Numbering? || f.Deciding?
  {
    if f.Numbering? then Some(f.validUntil) else ExpiryOf(f.cert)
  }

  ghost predicate CodeLasts(w: World, id: Id, t: Time) {
    exists s :: ActiveFor(w.qrCodes, id, s) && Lasts(w.qrCodes[s].expiresAt, t)
  }

  predicate RowLasts(w: World, id: Id, t: Time)
    requires id < |w.certifications|
  {
    Lasts(ExpiryOf(w.certifications[id]), t)
  }

  predicate PendingLasts(sw: SplitWorld, id: Id, t: Time) {
    exists f | 0 <= f < |sw.flights| :: IsPending(sw.flights[f], id) && Lasts(PendingExpiry(sw.flights[f]), t)
  }

  /**
   * The tables can come to answer valid at t: the certification is on its way to a grant, or is GRANTED or about to be,
   * and a code lasts or (if one can still be issued) a validity does.
   */
  ghost predicate CanVerifyAt(sw: SplitWorld, id: Id, t: Time, issuable: bool)
    requires id < |sw.world.certifications|
  {
    var w := sw.world;
    || Climbable(w.certifications[id].currentStatus)
    || ClimbInFlight(sw, id)
    || (StandsAt(w, id, Granted) && (CodeLasts(w, id, t) || (issuable && RowLasts(w, id, t))))
    || (GrantInFlight(sw, id) &&
        (CodeLasts(w, id, t) || (issuable && (RowLasts(w, id, t) || PendingLasts(sw, id, t)))))
  }

  /** A second code in one millisecond is refused. */
  predicate Issuable(w: World, id: Id) {
    Signature(id, w.now) !in w.qrCodes
  }

  ghost predicate LookupMayTurnValid(sw: SplitWorld, id: Id)
    requires id < |sw.world.certifications|
  {
    CanVerifyAt(sw, id, sw.world.now, Issuable(sw.world, id)) || CanVerifyAt(sw, id, sw.world.now + 1, true)
  }

  /** A scan read a valid answer for the certification and has yet to store it. */
  predicate ValidScanInFlight(sw: SplitWorld, id: Id) {
    exists k | 0 <= k < |sw.scans| ::
      !sw.scans[k].landed && sw.scans[k].signature.certificationId == id && sw.scans[k].answer.valid
  }

  ghost predicate ValidAnswerCached(w: World, id: Id) {
    exists s: Signature :: s.certificationId == id && Live(w, s) && w.cache[s].answer.valid
  }

  ghost predicate MayVerify(sw: SplitWorld, id: Id)
    requires id < |sw.world.certifications|
  {
    ValidScanInFlight(sw, id) || ValidAnswerCached(sw.world, id) || LookupMayTurnValid(sw, id)
  }

  // ----- No way back is kept -----

  /** At t the tables will not answer valid, whatever runs until then. */
  ghost predicate Shut(sw: SplitWorld, id: Id, t: Time, issuable: bool) {
    && id < |sw.world.certifications|
    && !CanVerifyAt(sw, id, t, issuable)
    && (issuable || (t == sw.world.now && !Issuable(sw.world, id)))
  }

  /** Active codes of the certification after a step: the old ones and perhaps one issued now from its row. */
  ghost predicate CodesFrom(w: World, w': World, id: Id)
    requires id < |w.certifications|
  {
    && w.qrCodes.Keys <= w'.qrCodes.Keys
    && forall s | ActiveFor(w'.qrCodes, id, s) ::
         || (ActiveFor(w.qrCodes, id, s) && w'.qrCodes[s].expiresAt == w.qrCodes[s].expiresAt)
         || (s == Signature(id, w.now) && s !in w.qrCodes && w'.qrCodes[s].expiresAt == ExpiryOf(w.certifications[id]))
  }

  lemma CodesFromLast(w: World, w': World, id: Id, t: Time, issuable: bool)
    requires id < |w.certifications| && CodesFrom(w, w', id)
    requires issuable || !Issuable(w, id)
    requires !CodeLasts(w, id, t) && (issuable ==> !RowLasts(w, id, t))
    ensures !CodeLasts(w', id, t)
  {
  }

  lemma GeneratedCodes(w: World, id: Id, other: Id)
    requires id < |w.certifications|
    ensures CodesFrom(w, GenerateQrCode(w, other).world, id)
  {
  }

  /** A grant of another certification issues no code of this one. */
  lemma OtherGrantCodes(w: World, c: Call, id: Id)
    requires id < |w.certifications| && c.Granting? && c.id != id
    ensures CodesFrom(w, Step(w, c), id)
  {
    if StandsAt(w, c.id, UnderReview) {
      var t := GrantTransition(w, c.id, c.validFrom, c.validUntil, c.year, c.actor);
      GeneratedCodes(t, id, c.id);
    }
  }

  lemma RevokedCodes(w: World, c: Call, id: Id)
    requires id < |w.certifications| && c.Revoking?
    ensures CodesFrom(w, Step(w, c), id)
  {
    if StandsAt(w, c.id, Granted) {
      RevokedTables(w, c.id, c.reason, c.actor);
    }
  }

  lemma ScannedCodes(w: World, c: Call, id: Id)
    requires id < |w.certifications| && c.Verifying?
    ensures CodesFrom(w, Step(w, c), id)
  {
  }

  lemma WholeCodes(w: World, c: Call, id: Id)
    requires id < |w.certifications| && (c.Granting? ==> c.id != id || !StandsAt(w, id, UnderReview))
    ensures CodesFrom(w, Step(w, c), id)
  {
    match c
    case Granting(other, _, _, _, _) =>
      if other != id {
        OtherGrantCodes(w, c, id);
      }
    case Generating(other) => GeneratedCodes(w, id, other);
    case Revoking(_, _, _) => RevokedCodes(w, c, id);
    case Verifying(_, _, _) => ScannedCodes(w, c, id);
    case _ => CodesUntouched(w, c);
  }

  /** The row after a step that commits nothing in flight: it stays, or leaves GRANTED for good. */
  predicate StaysOrEnds(old_: Certification, new_: Certification) {
    && ExpiryOf(new_) == ExpiryOf(old_)
    && (new_.currentStatus == old_.currentStatus || (old_.currentStatus == Granted && Final(new_.currentStatus)))
  }

  lemma ChangeEnds(d: Change, w: World, w': World, id: Id)
    requires Applies(d, w, w') && !d.Overwritten?
    requires id < |w.certifications| && !Climbable(w.certifications[id].currentStatus)
    ensures id < |w'.certifications| && StaysOrEnds(w.certifications[id], w'.certifications[id])
  {
  }

  ghost predicate RowStays(w: World, w': World, id: Id)
    requires id < |w.certifications|
  {
    && id < |w'.certifications| && StaysOrEnds(w.certifications[id], w'.certifications[id])
    && CodesFrom(w, w', id)
  }

  /** Pending transitions of the certification after a step: old ones, or one that read its present row to end it. */
  predicate PendingFrom(sw: SplitWorld, flights: seq<Flight>, id: Id)
    requires id < |sw.world.certifications|
  {
    forall f | 0 <= f < |flights| && IsPending(flights[f], id) ::
      || (f < |sw.flights| && IsPending(sw.flights[f], id) &&
          PendingExpiry(flights[f]) == PendingExpiry(sw.flights[f]) &&
          Grants(flights[f], id) == Grants(sw.flights[f], id) && Climbs(flights[f], id) == Climbs(sw.flights[f], id))
      || (PendingExpiry(flights[f]) == ExpiryOf(sw.world.certifications[id]) &&
          !Grants(flights[f], id) && !Climbs(flights[f], id))
  }

  lemma ShutCarries(sw: SplitWorld, sw': SplitWorld, id: Id, t: Time, issuable: bool)
    requires Shut(sw, id, t, issuable)
    requires RowStays(sw.world, sw'.world, id) && PendingFrom(sw, sw'.flights, id)
    requires issuable || sw'.world.now == sw.world.now
    ensures Shut(sw', id, t, issuable)
  {
    if StandsAt(sw.world, id, Granted) || GrantInFlight(sw, id) {
      CodesFromLast(sw.world, sw'.world, id, t, issuable);
    }
    assert ClimbInFlight(sw', id) ==> ClimbInFlight(sw, id);
    assert GrantInFlight(sw', id) ==> GrantInFlight(sw, id);
    assert PendingLasts(sw', id, t) ==> PendingLasts(sw, id, t) || RowLasts(sw.world, id, t);
  }

  lemma WholeKeepsShut(sw: SplitWorld, c: Call, id: Id, t: Time, issuable: bool)
    requires Shut(sw, id, t, issuable) && !IsInspection(c) && (issuable || !c.Tick?)
    ensures Shut(NextSplit(sw, Whole(c)), id, t, issuable)
  {
    var d := ChangeOf(sw.world, c);
    ChangeEnds(d, sw.world, Step(sw.world, c), id);
    WholeCodes(sw.world, c, id);
    ClockAdvances(sw.world, c);
    ShutCarries(sw, NextSplit(sw, Whole(c)), id, t, issuable);
  }

  /** A transition begun on a certification that is final or GRANTED can only end it. */
  lemma BegunEnds(w: World, c: Call, id: Id)
    requires Begun(w, c).Some? && Begun(w, c).value.id == id
    requires id < |w.certifications| && !Climbable(w.certifications[id].currentStatus)
    ensures var f := Begun(w, c).value;
            && (f.Numbering? || f.Deciding?) && PendingExpiry(f) == ExpiryOf(w.certifications[id])
            && !Grants(f, id) && !Climbs(f, id)
  {
    BegunHolds(w, c);
  }

  lemma BeginKeepsShut(sw: SplitWorld, c: Call, id: Id, t: Time, issuable: bool)
    requires Shut(sw, id, t, issuable)
    ensures Shut(NextSplit(sw, Begin(c)), id, t, issuable)
  {
    var begun := Begun(sw.world, c);
    if begun.Some? && IsPending(begun.value, id) {
      BegunEnds(sw.world, c, id);
    }
    ShutCarries(sw, NextSplit(sw, Begin(c)), id, t, issuable);
  }

  /** Every step of a flight but the commit. */
  lemma ProceedKeepsShut(sw: SplitWorld, f: nat, id: Id, t: Time, issuable: bool)
    requires Shut(sw, id, t, issuable) && f < |sw.flights| && !IsPending(sw.flights[f], id)
    ensures Shut(Proceeded(sw, f), id, t, issuable)
  {
    var w, sw' := sw.world, Proceeded(sw, f);
    if sw.flights[f].Issuing? {
      GeneratedCodes(w, id, sw.flights[f].id);
    }
    assert RowStays(w, sw'.world, id);
    ShutCarries(sw, sw', id, t, issuable);
  }

  lemma NumberingKeepsShut(sw: SplitWorld, f: nat, id: Id, t: Time, issuable: bool)
    requires Shut(sw, id, t, issuable) && f < |sw.flights| && IsPending(sw.flights[f], id) && sw.flights[f].Numbering?
    ensures Shut(Proceeded(sw, f), id, t, issuable)
  {
    ShutCarries(sw, Proceeded(sw, f), id, t, issuable);
  }

  /** A commit makes the flight's own validity the row's. */
  lemma CommitKeepsShut(sw: SplitWorld, f: nat, id: Id, t: Time, issuable: bool)
    requires Shut(sw, id, t, issuable) && f < |sw.flights| && IsPending(sw.flights[f], id) && sw.flights[f].Deciding?
    ensures Shut(Proceeded(sw, f), id, t, issuable)
  {
    var sw' := Proceeded(sw, f);
    var Deciding(_, cert, event, _, _) := sw.flights[f];
    assert !Climbs(sw.flights[f], id) && (event == DecisionGranted ==> GrantInFlight(sw, id));
    assert sw'.world.certifications[id] == cert.(currentStatus := EdgeOf(event).to);
    assert sw'.world.qrCodes == sw.world.qrCodes;
    assert ClimbInFlight(sw', id) ==> ClimbInFlight(sw, id);
    assert GrantInFlight(sw', id) ==> GrantInFlight(sw, id);
    assert PendingLasts(sw', id, t) ==> PendingLasts(sw, id, t);
    assert RowLasts(sw'.world, id, t) ==> PendingLasts(sw, id, t);
  }

  lemma StepKeepsShut(sw: SplitWorld, step: SplitStep, id: Id, t: Time, issuable: bool)
    requires Shut(sw, id, t, issuable) && Guarded(step)
    requires issuable || NextSplit(sw, step).world.now == sw.world.now
    ensures Shut(NextSplit(sw, step), id, t, issuable)
  {
    match step
    case Whole(c) => WholeOrTickKeepsShut(sw, c, id, t, issuable);
    case Begin(c) => BeginKeepsShut(sw, c, id, t, issuable);
    case Proceed(f) =>
      if f < |sw.flights| {
        if !IsPending(sw.flights[f], id) {
          ProceedKeepsShut(sw, f, id, t, issuable);
        } else if sw.flights[f].Numbering? {
          NumberingKeepsShut(sw, f, id, t, issuable);
        } else {
          CommitKeepsShut(sw, f, id, t, issuable);
        }
      }
    case Look(s) => ShutCarries(sw, NextSplit(sw, step), id, t, issuable);
    case Store(_, _, _) =>
  }

  lemma WholeOrTickKeepsShut(sw: SplitWorld, c: Call, id: Id, t: Time, issuable: bool)
    requires Shut(sw, id, t, issuable) && !IsInspection(c)
    requires issuable || Step(sw.world, c).now == sw.world.now
    ensures Shut(NextSplit(sw, Whole(c)), id, t, issuable)
  {
    if c.Tick? {
      ShutCarries(sw, NextSplit(sw, Whole(c)), id, t, issuable);
    } else {
      WholeKeepsShut(sw, c, id, t, issuable);
    }
  }

  /** Once shut at t, the tables answer nothing valid from t on. */
  lemma ShutLookup(sw: SplitWorld, id: Id, t: Time, issuable: bool, s: Signature)
    requires Shut(sw, id, t, issuable) && sw.world.now >= t && s.certificationId == id
    ensures !Lookup(sw.world, s).valid
  {
    ValidLookup(sw.world, s);
    if Lookup(sw.world, s).valid {
      assert ActiveFor(sw.world.qrCodes, id, s) && Lasts(sw.world.qrCodes[s].expiresAt, t);
    }
  }

  // ----- Nothing valid any more -----

  /** since is the instant from which on the certification cannot verify. */
  ghost predicate Dead(sw: SplitWorld, id: Id, since: Time) {
    && since <= sw.world.now
    && Shut(sw, id, since + 1, true)
    && (sw.world.now == since ==> Shut(sw, id, since, Issuable(sw.world, id)))
    && !ValidScanInFlight(sw, id)
    && !ValidAnswerCached(sw.world, id)
  }

  lemma DeadIsSilent(sw: SplitWorld, id: Id, since: Time, s: Signature)
    requires Dead(sw, id, since) && s.certificationId == id
    ensures !Lookup(sw.world, s).valid && !Answer(sw.world, s).valid
  {
    if sw.world.now == since {
      ShutLookup(sw, id, since, Issuable(sw.world, id), s);
    } else {
      ShutLookup(sw, id, since + 1, true, s);
    }
  }

  lemma DeadShutStays(sw: SplitWorld, step: SplitStep, id: Id, since: Time)
    requires Dead(sw, id, since) && Guarded(step)
    ensures var sw' := NextSplit(sw, step);
            && since <= sw'.world.now && Shut(sw', id, since + 1, true)
            && (sw'.world.now == since ==> Shut(sw', id, since, Issuable(sw'.world, id)))
  {
    var sw' := NextSplit(sw, step);
    SplitClockAdvances(sw, step);
    StepKeepsShut(sw, step, id, since + 1, true);
    if sw'.world.now == since {
      StepKeepsShut(sw, step, id, since, Issuable(sw.world, id));
    }
  }

  lemma DeadStays(sw: SplitWorld, step: SplitStep, id: Id, since: Time)
    requires Dead(sw, id, since) && Guarded(step)
    ensures Dead(NextSplit(sw, step), id, since)
  {
    var sw' := NextSplit(sw, step);
    DeadShutStays(sw, step, id, since);
    SplitClockAdvances(sw, step);
    forall s: Signature | s.certificationId == id && Live(sw'.world, s)
      ensures !sw'.world.cache[s].answer.valid
    {
      CacheAfterSplit(sw, step, s);
      DeadIsSilent(sw, id, since, s);
    }
    forall k | 0 <= k < |sw'.scans| && !sw'.scans[k].landed && sw'.scans[k].signature.certificationId == id
      ensures !sw'.scans[k].answer.valid
    {
      ScansAfterSplit(sw, step, k);
      DeadIsSilent(sw, id, since, sw'.scans[k].signature);
    }
  }

  lemma {:induction false} DeadRun(sw: SplitWorld, steps: seq<SplitStep>, id: Id, since: Time)
    requires Dead(sw, id, since) && AllGuarded(steps)
    ensures Dead(Run(sw, steps), id, since)
    decreases |steps|
  {
    if steps != [] {
      DeadStays(sw, steps[0], id, since);
      DeadRun(NextSplit(sw, steps[0]), steps[1..], id, since);
    }
  }
}

/** Redelivery and reordering of lab.test.completed events. */
module LabEvents {
  import opened Text
  import opened Lifecycle
  import opened Registry
  import opened Changes
  import opened SplitCalls

  predicate IsLabRow(row: LedgerRow) {
    row.edge.event == EventType.LabResultsReceived
  }

  /** No two lab rows carry the same event id. */
  predicate LabRowsDistinct(ledger: seq<LedgerRow>) {
    forall i, j | 0 <= i < j < |ledger| && IsLabRow(ledger[i]) && IsLabRow(ledger[j]) ::
      ledger[i].actor.correlationId != ledger[j].actor.correlationId
  }

  lemma ChangeKeepsLabRowsDistinct(d: Change, w: World, c: Call, w': World)
    requires LabRowsDistinct(w.ledger) && Applies(d, w, w') && FitsCall(w, c, d)
    ensures LabRowsDistinct(w'.ledger)
  {
    if (d.Moved? || d.Succeeded?) && IsLabRow(d.row) {
      assert !IsEventProcessed(w, d.row.actor.correlationId);
    }
  }

  /** In every run, whatever is redelivered and whatever runs in between, an event id has at most one lab row. */
  lemma {:induction false} OneLabRowPerEvent(worlds: seq<World>, calls: seq<Call>, i: nat)
    requires Trace(worlds, calls) && i <= |calls|
    ensures LabRowsDistinct(worlds[i].ledger)
  {
    if i > 0 {
      assert Linked(worlds, calls, i - 1);
      OneLabRowPerEvent(worlds, calls, i - 1);
      var d := ChangeOf(worlds[i - 1], calls[i - 1]);
      ChangeKeepsLabRowsDistinct(d, worlds[i - 1], calls[i - 1], worlds[i]);
    }
  }

  /** A delivery moves a certification exactly when its event id is new and some certification of the batch waits. */
  lemma DeliveryTakesEffectIff(w: World, e: LabEvent, pick: Id)
    ensures HandleLabTestCompleted(w, e, pick).world != w <==>
            && (forall i | 0 <= i < |w.ledger| :: w.ledger[i].actor.correlationId != e.eventId)
            && exists id: Id :: StandsAt(w, id, LabTesting) && w.certifications[id].terms.batchId == e.batchId
  {
    assert forall id: Id :: AwaitsLab(w.certifications, e.batchId, id) <==>
                            StandsAt(w, id, LabTesting) && w.certifications[id].terms.batchId == e.batchId;
    if !IsEventProcessed(w, e.eventId) {
      var found := FindAwaiting(w.certifications, e.batchId, pick);
      if found.Some? {
        assert |HandleLabTestCompleted(w, e, pick).world.ledger| == |w.ledger| + 1;
      }
    }
  }

  /** Delivering an event again right away changes nothing, whichever row the database would pick. */
  lemma RedeliveryIsIdempotent(w: World, e: LabEvent, pick: Id, again: Id)
    ensures var once := HandleLabTestCompleted(w, e, pick).world;
            HandleLabTestCompleted(once, e, again).world == once
  {
    var once := HandleLabTestCompleted(w, e, pick).world;
    if once.ledger != w.ledger {
      assert once.ledger[|w.ledger|].actor.correlationId == e.eventId;
    }
  }

  /** The row a delivery appends. */
  function LabRow(w: World, e: LabEvent, id: Id): LedgerRow
    requires id < |w.certifications|
  {
    LedgerRow(id, Edge(EventType.LabResultsReceived, w.certifications[id].currentStatus, Status.LabResultsReceived),
              Actor("system", "service-account", e.eventId), LabReport(e.labTestId, e.passed, w.now), w.now)
  }

  predicate Delivers(w: World, e: LabEvent, pick: Id) {
    !IsEventProcessed(w, e.eventId) && FindAwaiting(w.certifications, e.batchId, pick).Some?
  }

  lemma DeliveryIs(w: World, e: LabEvent, pick: Id)
    ensures var found := FindAwaiting(w.certifications, e.batchId, pick);
            HandleLabTestCompleted(w, e, pick).world ==
            if Delivers(w, e, pick) then
              w.(ledger := w.ledger + [LabRow(w, e, found.value)],
                 certifications := w.certifications[found.value :=
                   w.certifications[found.value].(currentStatus := Status.LabResultsReceived)])
            else w
  {
  }

  /** Moving a certification of one batch on does not affect what another batch finds. */
  lemma {:induction false} OtherBatchUnaffected(certs: seq<Certification>, id: Id, status: Status, batch: string,
                                                from: Id)
    requires id < |certs| && certs[id].terms.batchId != batch && from <= |certs|
    ensures FirstAwaiting(certs[id := certs[id].(currentStatus := status)], batch, from) ==
            FirstAwaiting(certs, batch, from)
    decreases |certs| - from
  {
    if from < |certs| {
      OtherBatchUnaffected(certs, id, status, batch, from + 1);
    }
  }

  lemma DeliveryUnaffected(w: World, e: LabEvent, pick: Id, f: LabEvent, choice: Id)
    requires e.eventId != f.eventId && e.batchId != f.batchId
    ensures var w' := HandleLabTestCompleted(w, f, choice).world;
            && IsEventProcessed(w', e.eventId) == IsEventProcessed(w, e.eventId)
            && FindAwaiting(w'.certifications, e.batchId, pick) == FindAwaiting(w.certifications, e.batchId, pick)
  {
    var w' := HandleLabTestCompleted(w, f, choice).world;
    DeliveryIs(w, f, choice);
    if Delivers(w, f, choice) {
      var id := FindAwaiting(w.certifications, f.batchId, choice).value;
      OtherBatchUnaffected(w.certifications, id, Status.LabResultsReceived, e.batchId, 0);
      assert forall i | 0 <= i < |w.ledger| :: w'.ledger[i] == w.ledger[i];
    }
  }

  /** Events of different batches commute: same tables, ledgers equal up to order. */
  lemma EventsCommute(w: World, e: LabEvent, pick: Id, f: LabEvent, choice: Id)
    requires e.eventId != f.eventId && e.batchId != f.batchId
    ensures var ef := HandleLabTestCompleted(HandleLabTestCompleted(w, e, pick).world, f, choice).world;
            var fe := HandleLabTestCompleted(HandleLabTestCompleted(w, f, choice).world, e, pick).world;
            ef.(ledger := []) == fe.(ledger := []) && multiset(ef.ledger) == multiset(fe.ledger)
  {
    var we, wf := HandleLabTestCompleted(w, e, pick).world, HandleLabTestCompleted(w, f, choice).world;
    DeliveryIs(w, e, pick);
    DeliveryIs(w, f, choice);
    DeliveryUnaffected(w, e, pick, f, choice);
    DeliveryUnaffected(w, f, choice, e, pick);
    DeliveryIs(we, f, choice);
    DeliveryIs(wf, e, pick);
    if Delivers(w, e, pick) && Delivers(w, f, choice) {
      var i := FindAwaiting(w.certifications, e.batchId, pick).value;
      var j := FindAwaiting(w.certifications, f.batchId, choice).value;
      assert i != j;
      assert LabRow(we, f, j) == LabRow(w, f, j) && LabRow(wf, e, i) == LabRow(w, e, i);
      SwappedRows(w.ledger, LabRow(w, e, i), LabRow(w, f, j));
    }
  }

  lemma SwappedRows(ledger: seq<LedgerRow>, a: LedgerRow, b: LedgerRow)
    ensures multiset(ledger + [a] + [b]) == multiset(ledger + [b] + [a])
  {
    assert multiset(ledger + [a] + [b]) == multiset(ledger) + multiset([a]) + multiset([b]);
    assert multiset(ledger + [b] + [a]) == multiset(ledger) + multiset([b]) + multiset([a]);
  }

  // ----- Deliveries that overlap -----

  /** The delivery of an event that has been looked up and not yet committed. */
  predicate IsDelivery(f: Flight) {
    f.Deciding? && f.event == EventType.LabResultsReceived
  }

  predicate HasLabRow(ledger: seq<LedgerRow>, eventId: string) {
    exists i | 0 <= i < |ledger| :: IsLabRow(ledger[i]) && ledger[i].actor.correlationId == eventId
  }

  /** Committing a delivery keeps lab rows distinct exactly when none of its event has been written since its check. */
  lemma DeliveryKeepsDistinctIff(sw: SplitWorld, f: nat)
    requires LabRowsDistinct(sw.world.ledger)
    requires f < |sw.flights| && IsDelivery(sw.flights[f]) && sw.flights[f].id < |sw.world.certifications|
    ensures LabRowsDistinct(Proceeded(sw, f).world.ledger) <==>
            !HasLabRow(sw.world.ledger, sw.flights[f].actor.correlationId)
  {
    var ledger, more := sw.world.ledger, Proceeded(sw, f).world.ledger;
    var n := |ledger|;
    assert more[..n] == ledger && IsLabRow(more[n]);
    assert more[n].actor == sw.flights[f].actor;
    if HasLabRow(ledger, sw.flights[f].actor.correlationId) {
      var i :| 0 <= i < n && IsLabRow(ledger[i]) && ledger[i].actor.correlationId == more[n].actor.correlationId;
      assert more[i] == ledger[i];
    } else {
      forall i, j | 0 <= i < j < |more| && IsLabRow(more[i]) && IsLabRow(more[j])
        ensures more[i].actor.correlationId != more[j].actor.correlationId
      {
        assert more[i] == ledger[i];
        assert j < n ==> more[j] == ledger[j];
      }
    }
  }

  /** No delivery of the event is in flight. */
  predicate NotInFlight(sw: SplitWorld, eventId: string) {
    forall f | 0 <= f < |sw.flights| && IsDelivery(sw.flights[f]) :: sw.flights[f].actor.correlationId != eventId
  }

  /** An event is delivered only while no other delivery of it is in flight. */
  predicate OneAtATime(sw: SplitWorld, step: SplitStep) {
    (step.Whole? || step.Begin?) && step.call.LabTestCompleted? ==> NotInFlight(sw, step.call.event.eventId)
  }

  /** Lab rows are distinct, and each delivery in flight is the only one of an event that has no row yet. */
  predicate DeliveriesDistinct(sw: SplitWorld) {
    && LabRowsDistinct(sw.world.ledger)
    && (forall f | 0 <= f < |sw.flights| && IsDelivery(sw.flights[f]) ::
          !HasLabRow(sw.world.ledger, sw.flights[f].actor.correlationId))
    && (forall f, g | 0 <= f < g < |sw.flights| && IsDelivery(sw.flights[f]) && IsDelivery(sw.flights[g]) ::
          sw.flights[f].actor.correlationId != sw.flights[g].actor.correlationId)
  }

  lemma RowAddsEvent(ledger: seq<LedgerRow>, row: LedgerRow, eventId: string)
    requires HasLabRow(ledger + [row], eventId)
    ensures HasLabRow(ledger, eventId) || (IsLabRow(row) && row.actor.correlationId == eventId)
  {
    var more := ledger + [row];
    var i :| 0 <= i < |more| && IsLabRow(more[i]) && more[i].actor.correlationId == eventId;
    assert i < |ledger| ==> more[i] == ledger[i];
  }

  lemma ChangeKeepsDeliveries(d: Change, sw: SplitWorld, c: Call, w': World)
    requires DeliveriesDistinct(sw) && OneAtATime(sw, Whole(c))
    requires Applies(d, sw.world, w') && FitsCall(sw.world, c, d)
    ensures DeliveriesDistinct(sw.(world := w'))
  {
    ChangeKeepsLabRowsDistinct(d, sw.world, c, w');
    forall f | 0 <= f < |sw.flights| && IsDelivery(sw.flights[f])
      ensures !HasLabRow(w'.ledger, sw.flights[f].actor.correlationId)
    {
      if (d.Moved? || d.Succeeded?) && HasLabRow(w'.ledger, sw.flights[f].actor.correlationId) {
        RowAddsEvent(sw.world.ledger, d.row, sw.flights[f].actor.correlationId);
      }
    }
  }

  lemma BeginKeepsDeliveries(sw: SplitWorld, c: Call)
    requires DeliveriesDistinct(sw) && OneAtATime(sw, Begin(c))
    ensures DeliveriesDistinct(NextSplit(sw, Begin(c)))
  {
    var begun := Begun(sw.world, c);
    if begun.Some? && IsDelivery(begun.value) {
      assert c.LabTestCompleted?;
      assert !HasLabRow(sw.world.ledger, c.event.eventId);
    }
  }

  lemma ProceedKeepsDeliveries(sw: SplitWorld, f: nat)
    requires DeliveriesDistinct(sw) && f < |sw.flights|
    ensures DeliveriesDistinct(Proceeded(sw, f))
  {
    var sw' := Proceeded(sw, f);
    if sw.flights[f].Deciding? && sw.flights[f].id < |sw.world.certifications| {
      var Deciding(id, cert, event, actor, payload) := sw.flights[f];
      var row := sw'.world.ledger[|sw.world.ledger|];
      assert sw'.world.ledger == sw.world.ledger + [row] && row.actor == actor && row.edge.event == event;
      if IsDelivery(sw.flights[f]) {
        DeliveryKeepsDistinctIff(sw, f);
      }
      forall g | 0 <= g < |sw'.flights| && IsDelivery(sw'.flights[g])
        ensures !HasLabRow(sw'.world.ledger, sw'.flights[g].actor.correlationId)
      {
        assert g != f && sw'.flights[g] == sw.flights[g];
        if HasLabRow(sw'.world.ledger, sw.flights[g].actor.correlationId) {
          RowAddsEvent(sw.world.ledger, row, sw.flights[g].actor.correlationId);
        }
      }
    } else {
      assert sw'.world.ledger == sw.world.ledger;
    }
  }

  /**
   * However calls overlap, an event id has at most one lab row as long as no two deliveries of the same event do: the
   * check for the event and the commit of its row are separate awaits.
   */
  lemma {:induction false} OneLabRowPerEventIfOneAtATime(worlds: seq<SplitWorld>, steps: seq<SplitStep>, i: nat)
    requires SplitTrace(worlds, steps) && i <= |steps|
    requires forall k | 0 <= k < |steps| :: OneAtATime(worlds[k], steps[k])
    ensures DeliveriesDistinct(worlds[i])
  {
    if i > 0 {
      assert SplitLinked(worlds, steps, i - 1);
      OneLabRowPerEventIfOneAtATime(worlds, steps, i - 1);
      var sw := worlds[i - 1];
      assert OneAtATime(sw, steps[i - 1]);
      match steps[i - 1]
      case Whole(c) =>
        var d := ChangeOf(sw.world, c);
        ChangeKeepsDeliveries(d, sw, c, worlds[i].world);
      case Begin(c) => BeginKeepsDeliveries(sw, c);
      case Proceed(f) =>
        if f < |sw.flights| {
          ProceedKeepsDeliveries(sw, f);
        }
      case Look(_) =>
      case Store(_, _, _) =>
    }
  }

  /** Two deliveries of one event that both pass the check both write their row. */
  lemma TwoDeliveriesOverlap(w: World, e: LabEvent, pick: Id)
    requires Delivers(w, e, pick) && LabRowsDistinct(w.ledger)
    ensures var begin := Begin(LabTestCompleted(e, pick));
            !LabRowsDistinct(Run(Unsplit(w), [begin, begin, Proceed(0), Proceed(1)]).world.ledger)
  {
    var begin := Begin(LabTestCompleted(e, pick));
    RunFour(Unsplit(w), begin, begin, Proceed(0), Proceed(1));
    var read := NextSplit(NextSplit(Unsplit(w), begin), begin);
    var flight := Begun(w, LabTestCompleted(e, pick)).value;
    assert read.flights == [flight, flight] && read.world == w;
    var once := NextSplit(read, Proceed(0));
    assert once.flights == [Landed, flight];
    var n := |w.ledger|;
    assert once.world.ledger[n].actor.correlationId == e.eventId && IsLabRow(once.world.ledger[n]);
    assert HasLabRow(once.world.ledger, e.eventId);
    assert !HasLabRow(w.ledger, e.eventId);
    DeliveryKeepsDistinctIff(read, 0);
    DeliveryKeepsDistinctIff(once, 1);
  }
}

/** What the append-only ledger says about each certification, over whole runs. */
module Ledger {
  import opened Text
  import opened Lifecycle
  import opened Registry
  import opened Changes

  /** One certification's transitions, oldest first. */
  function EdgesOf(ledger: seq<LedgerRow>, id: Id): seq<Edge> {
    if ledger == [] then []
    else
      var last := ledger[|ledger| - 1];
      var earlier := EdgesOf(ledger[..|ledger| - 1], id);
      if last.certificationId == id then earlier + [last.edge] else earlier
  }

  lemma EdgesSnoc(ledger: seq<LedgerRow>, row: LedgerRow, id: Id)
    ensures EdgesOf(ledger + [row], id) ==
            if row.certificationId == id then EdgesOf(ledger, id) + [row.edge] else EdgesOf(ledger, id)
  {
    assert (ledger + [row])[..|ledger|] == ledger;
  }

  lemma {:induction false} EdgesOfNobody(ledger: seq<LedgerRow>, id: Id)
    requires forall i | 0 <= i < |ledger| :: ledger[i].certificationId != id
    ensures EdgesOf(ledger, id) == []
  {
    if ledger != [] {
      EdgesOfNobody(ledger[..|ledger| - 1], id);
    }
  }

  /** Every row is one of the twelve edges and belongs to an existing certification. */
  predicate RowsLegal(w: World) {
    forall i | 0 <= i < |w.ledger| ::
      Legal(w.ledger[i].edge) && w.ledger[i].certificationId < |w.certifications|
  }

  /** Read from DRAFT, each certification's rows chain and end in its current status. */
  predicate Replays(certs: seq<Certification>, ledger: seq<LedgerRow>) {
    forall id | 0 <= id < |certs| :: Replay(EdgesOf(ledger, id), Draft) == Some(certs[id].currentStatus)
  }

  // ----- Legal rows: every run, inspections included -----

  /** In every run, InspectionService's writes included, each row is a legal edge for its event. */
  lemma {:induction false} RowsAlwaysLegal(worlds: seq<World>, calls: seq<Call>, i: nat)
    requires Trace(worlds, calls) && i <= |calls|
    ensures RowsLegal(worlds[i])
  {
    if i > 0 {
      assert Linked(worlds, calls, i - 1);
      RowsAlwaysLegal(worlds, calls, i - 1);
      var d := ChangeOf(worlds[i - 1], calls[i - 1]);
    }
  }

  predicate Grows(w: World, w': World) {
    w.ledger <= w'.ledger && |w.certifications| <= |w'.certifications|
  }

  lemma LedgerGrows(w: World, c: Call)
    ensures Grows(w, Step(w, c))
  {
    var d := ChangeOf(w, c);
  }

  /** The ledger is append-only over any stretch of any run. */
  lemma {:induction false} AppendOnly(worlds: seq<World>, calls: seq<Call>, i: nat, j: nat)
    requires Trace(worlds, calls) && i <= j <= |calls|
    ensures worlds[i].ledger <= worlds[j].ledger
    ensures |worlds[i].certifications| <= |worlds[j].certifications|
    decreases j
  {
    if i < j {
      assert Linked(worlds, calls, j - 1);
      AppendOnly(worlds, calls, i, j - 1);
      LedgerGrows(worlds[j - 1], calls[j - 1]);
    }
  }

  // ----- Replay: runs of CertificationService -----

  lemma TransitionKeepsReplay(w: World, id: Id, cert: Certification, row: LedgerRow)
    requires Replays(w.certifications, w.ledger) && IsTransition(w, id, cert, row)
    ensures Replays(w.certifications[id := cert], w.ledger + [row])
  {
    var certs := w.certifications[id := cert];
    forall other | 0 <= other < |certs|
      ensures Replay(EdgesOf(w.ledger + [row], other), Draft) == Some(certs[other].currentStatus)
    {
      EdgesSnoc(w.ledger, row, other);
      if other == id {
        ReplaySnoc(EdgesOf(w.ledger, id), row.edge, Draft);
      }
    }
  }

  lemma DraftKeepsReplay(certs: seq<Certification>, ledger: seq<LedgerRow>, draft: Certification)
    requires Replays(certs, ledger) && draft.currentStatus == Draft
    requires forall i | 0 <= i < |ledger| :: ledger[i].certificationId < |certs|
    ensures Replays(certs + [draft], ledger)
  {
    EdgesOfNobody(ledger, |certs|);
  }

  lemma StepKeepsReplay(w: World, c: Call)
    requires RowsLegal(w) && Replays(w.certifications, w.ledger) && !IsInspection(c)
    ensures Replays(Step(w, c).certifications, Step(w, c).ledger)
  {
    var d := ChangeOf(w, c);
    match d
    case Untouched =>
    case Drafted(draft) => DraftKeepsReplay(w.certifications, w.ledger, draft);
    case Moved(id, cert, row) => TransitionKeepsReplay(w, id, cert, row);
    case Succeeded(id, cert, row, draft) =>
      TransitionKeepsReplay(w, id, cert, row);
      DraftKeepsReplay(w.certifications[id := cert], w.ledger + [row], draft);
  }

  /** In every run of CertificationService calls, the ledger replays to the current status of every certification. */
  lemma {:induction false} LedgerAlwaysReplays(worlds: seq<World>, calls: seq<Call>, i: nat)
    requires Trace(worlds, calls) && LedgerOnly(calls) && i <= |calls|
    ensures Replays(worlds[i].certifications, worlds[i].ledger)
  {
    if i > 0 {
      assert Linked(worlds, calls, i - 1);
      LedgerAlwaysReplays(worlds, calls, i - 1);
      RowsAlwaysLegal(worlds, calls, i - 1);
      StepKeepsReplay(worlds[i - 1], calls[i - 1]);
    }
  }

  lemma {:induction false} EdgesAreLegal(w: World, ledger: seq<LedgerRow>, id: Id)
    requires RowsLegal(w) && ledger <= w.ledger
    ensures forall k | 0 <= k < |EdgesOf(ledger, id)| :: Legal(EdgesOf(ledger, id)[k])
  {
    if ledger != [] {
      EdgesAreLegal(w, ledger[..|ledger| - 1], id);
    }
  }

  /** Stronger than replay: the rows of a certification are exactly the one history its status allows. */
  lemma LedgerIsHistory(worlds: seq<World>, calls: seq<Call>, i: nat, id: Id)
    requires Trace(worlds, calls) && LedgerOnly(calls) && i <= |calls| && id < |worlds[i].certifications|
    ensures EdgesOf(worlds[i].ledger, id) == History(worlds[i].certifications[id].currentStatus)
  {
    LedgerAlwaysReplays(worlds, calls, i);
    RowsAlwaysLegal(worlds, calls, i);
    EdgesAreLegal(worlds[i], worlds[i].ledger, id);
    HistoryIsUnique(EdgesOf(worlds[i].ledger, id), worlds[i].certifications[id].currentStatus);
  }

  // ----- Progress measure -----

  function Count(edges: seq<Edge>, e: EventType): nat {
    if edges == [] then 0
    else Count(edges[..|edges| - 1], e) + if edges[|edges| - 1].event == e then 1 else 0
  }

  lemma CountSnoc(edges: seq<Edge>, last: Edge, e: EventType)
    ensures Count(edges + [last], e) == Count(edges, e) + if last.event == e then 1 else 0
  {
    assert (edges + [last])[..|edges|] == edges;
  }

  lemma {:induction false} HistoryHasEventOnce(s: Status, e: EventType)
    ensures Count(History(s), e) <= if Rank(s) < Rank(EdgeOf(e).to) then 0 else 1
    decreases Rank(s)
  {
    if s != Draft {
      ArrivalLeadsTo(s);
      HistoryGainsEvent(Arrival(s).value, e);
      HistoryHasEventOnce(EdgeOf(Arrival(s).value).from, e);
    }
  }

  lemma HistoryGainsEvent(last: EventType, e: EventType)
    ensures Count(History(EdgeOf(last).to), e) == Count(History(EdgeOf(last).from), e) + if last == e then 1 else 0
    ensures Rank(EdgeOf(last).to) == Rank(EdgeOf(last).from) + 1
  {
    HistoryAfter(last);
    ArrivalOf(last);
    CountSnoc(History(EdgeOf(last).from), EdgeOf(last), e);
  }

  /** At most ten rows per certification, no event twice: in particular nothing is granted twice. */
  lemma EachEventAtMostOnce(worlds: seq<World>, calls: seq<Call>, i: nat, id: Id, e: EventType)
    requires Trace(worlds, calls) && LedgerOnly(calls) && i <= |calls| && id < |worlds[i].certifications|
    ensures |EdgesOf(worlds[i].ledger, id)| == Rank(worlds[i].certifications[id].currentStatus) <= 10
    ensures Count(EdgesOf(worlds[i].ledger, id), e) <= 1
  {
    LedgerIsHistory(worlds, calls, i, id);
    HistoryHasEventOnce(worlds[i].certifications[id].currentStatus, e);
  }

  function TotalRank(certs: seq<Certification>): (total: nat)
    ensures total <= 10 * |certs|
  {
    if certs == [] then 0
    else TotalRank(certs[..|certs| - 1]) + Rank(certs[|certs| - 1].currentStatus)
  }

  lemma {:induction false} TotalRankUpdate(certs: seq<Certification>, id: Id, cert: Certification)
    requires id < |certs|
    ensures TotalRank(certs[id := cert]) ==
            TotalRank(certs) + Rank(cert.currentStatus) - Rank(certs[id].currentStatus)
    decreases |certs|
  {
    var n := |certs| - 1;
    if id == n {
      assert certs[id := cert][..n] == certs[..n];
    } else {
      TotalRankUpdate(certs[..n], id, cert);
      assert certs[id := cert][..n] == certs[..n][id := cert];
    }
  }

  lemma TotalRankSnoc(certs: seq<Certification>, cert: Certification)
    ensures TotalRank(certs + [cert]) == TotalRank(certs) + Rank(cert.currentStatus)
  {
    assert (certs + [cert])[..|certs|] == certs;
  }

  /** Each transition climbs exactly one rank. */
  lemma TransitionClimbs(w: World, id: Id, cert: Certification, row: LedgerRow)
    requires IsTransition(w, id, cert, row)
    ensures Rank(cert.currentStatus) == Rank(w.certifications[id].currentStatus) + 1
    ensures TotalRank(w.certifications[id := cert]) == TotalRank(w.certifications) + 1
  {
    ArrivalOf(row.edge.event);
    TotalRankUpdate(w.certifications, id, cert);
  }

  lemma ChangeKeepsTotal(d: Change, w: World, w': World)
    requires |w.ledger| == TotalRank(w.certifications) && Applies(d, w, w') && !d.Overwritten?
    ensures |w'.ledger| == TotalRank(w'.certifications)
  {
    match d
    case Untouched =>
    case Drafted(draft) => TotalRankSnoc(w.certifications, draft);
    case Moved(id, cert, row) => TransitionClimbs(w, id, cert, row);
    case Succeeded(id, cert, row, draft) =>
      TransitionClimbs(w, id, cert, row);
      TotalRankSnoc(w.certifications[id := cert], draft);
  }

  /** The ledger's length is the sum of the ranks, hence at most ten times the number of certifications. */
  lemma {:induction false} LedgerBounded(worlds: seq<World>, calls: seq<Call>, i: nat)
    requires Trace(worlds, calls) && LedgerOnly(calls) && i <= |calls|
    ensures |worlds[i].ledger| == TotalRank(worlds[i].certifications) <= 10 * |worlds[i].certifications|
  {
    if i > 0 {
      assert Linked(worlds, calls, i - 1);
      LedgerBounded(worlds, calls, i - 1);
      var d := ChangeOf(worlds[i - 1], calls[i - 1]);
      ChangeKeepsTotal(d, worlds[i - 1], worlds[i]);
    }
  }

  /** A status written past the ledger keeps that sum exactly when it writes the status that was there. */
  lemma OverwriteKeepsTotalIff(w: World, id: Id, status: Status)
    requires |w.ledger| == TotalRank(w.certifications) && id < |w.certifications|
    requires status == Status.InspectionScheduled || status == InspectionComplete
    ensures |w.ledger| == TotalRank(OverwriteStatus(w, id, status).certifications) <==>
            w.certifications[id].currentStatus == status
  {
    TotalRankUpdate(w.certifications, id, w.certifications[id].(currentStatus := status));
  }

  // ----- Where the chain breaks -----

  /**
   * With one InspectionService call the chain breaks: a fresh draft is scheduled for inspection, then the inspection
   * is started through the ledger. The only row starts in INSPECTION_SCHEDULED, so nothing replays from DRAFT.
   */
  lemma InspectionBreaksReplay(dto: RequestDto, schedule: ScheduleDto, actor: Actor)
    returns (worlds: seq<World>, calls: seq<Call>)
    requires FitsColumns(dto) && schedule.certificationId == 0
    ensures Trace(worlds, calls) && |calls| == 3
    ensures EdgesOf(worlds[3].ledger, 0) == [EdgeOf(InspectionStarted)]
    ensures |worlds[3].certifications| == 1 && Replay(EdgesOf(worlds[3].ledger, 0), Draft) == None
  {
    calls := [Request(dto, "user"), Scheduling(schedule), Advanced(0, StartInspection, actor)];
    var w0 := Blank(0);
    var w1 := Step(w0, calls[0]);
    var w2 := Step(w1, calls[1]);
    var w3 := Step(w2, calls[2]);
    worlds := [w0, w1, w2, w3];
    assert w2.certifications[0].currentStatus == Status.InspectionScheduled;
    assert w3.ledger == [] + [w3.ledger[0]];
    EdgesSnoc([], w3.ledger[0], 0);
  }

  /** Scheduling through InspectionService keeps the chain exactly when the certification is already scheduled. */
  lemma SchedulingKeepsReplayIff(w: World, dto: ScheduleDto)
    requires Replays(w.certifications, w.ledger) && dto.certificationId < |w.certifications|
    ensures Replays(ScheduleInspection(w, dto).world.certifications, w.ledger) <==>
            w.certifications[dto.certificationId].currentStatus == Status.InspectionScheduled
  {
  }

  /** Completing an open inspection keeps the chain exactly when the certification is already complete. */
  lemma CompletingKeepsReplayIff(w: World, id: Id, dto: CompleteDto, inspector: string)
    requires Replays(w.certifications, w.ledger)
    requires id < |w.inspections| && w.inspections[id].certificationId < |w.certifications|
    requires w.inspections[id].status == Scheduled || w.inspections[id].status == InProgress
    ensures Replays(CompleteInspection(w, id, dto, inspector).world.certifications, w.ledger) <==>
            w.certifications[w.inspections[id].certificationId].currentStatus == InspectionComplete
  {
  }

}

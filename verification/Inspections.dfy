/** Inspections and their reports over whole runs. */
module Inspections {
  import opened Text
  import opened Registry
  import opened Changes

  predicate ReportFits(w: World, r: Report) {
    && r.inspectionId < |w.inspections|
    && w.inspections[r.inspectionId].status == Completed
    && w.inspections[r.inspectionId].passed == Some(r.passed)
    && w.inspections[r.inspectionId].completedAt == Some(r.completedAt)
    && w.inspections[r.inspectionId].certificationId == r.certificationId
    && w.inspections[r.inspectionId].cooperativeId == r.cooperativeId
  }

  predicate HasReport(w: World, id: Id) {
    exists k | 0 <= k < |w.reports| :: w.reports[k].inspectionId == id
  }

  /** Inspections are open or completed; completed ones and reports correspond one to one and carry one verdict. */
  predicate ReportsMatch(w: World) {
    && (forall id | 0 <= id < |w.inspections| ::
          w.inspections[id].status == Scheduled || w.inspections[id].status == Completed)
    && (forall id | 0 <= id < |w.inspections| && w.inspections[id].status == Completed :: HasReport(w, id))
    && (forall k | 0 <= k < |w.reports| :: ReportFits(w, w.reports[k]))
    && (forall j, k | 0 <= j < k < |w.reports| :: w.reports[j].inspectionId != w.reports[k].inspectionId)
  }

  lemma OtherCallsKeepReports(w: World, c: Call)
    requires !IsInspection(c) && !c.Assigning?
    ensures Step(w, c).inspections == w.inspections && Step(w, c).reports == w.reports
  {
  }

  lemma SchedulingKeepsMatch(w: World, dto: ScheduleDto)
    requires ReportsMatch(w)
    ensures ReportsMatch(ScheduleInspection(w, dto).world)
  {
    var w' := ScheduleInspection(w, dto).world;
    forall id | 0 <= id < |w'.inspections| && w'.inspections[id].status == Completed
      ensures HasReport(w', id)
    {
      assert w'.inspections[id] == w.inspections[id];
      assert HasReport(w, id);
    }
  }

  lemma AssigningKeepsMatch(w: World, id: Id, inspectorId: string, name: string)
    requires ReportsMatch(w)
    ensures ReportsMatch(AssignInspector(w, id, inspectorId, name).world)
  {
    var w' := AssignInspector(w, id, inspectorId, name).world;
    forall i | 0 <= i < |w'.inspections| && w'.inspections[i].status == Completed
      ensures HasReport(w', i)
    {
      assert HasReport(w, i);
    }
    assert forall k | 0 <= k < |w.reports| :: ReportFits(w, w.reports[k]);
  }

  /** The tables after an accepted completion. */
  predicate CompletedBy(w: World, w': World, id: Id, r: Report) {
    && id < |w.inspections| && w.inspections[id].status == Scheduled && r.inspectionId == id
    && w'.reports == w.reports + [r] && |w'.inspections| == |w.inspections|
    && (forall i | 0 <= i < |w.inspections| && i != id :: w'.inspections[i] == w.inspections[i])
    && ReportFits(w', r)
  }

  lemma CompletionKeepsMatch(w: World, w': World, id: Id, r: Report)
    requires ReportsMatch(w) && CompletedBy(w, w', id, r)
    ensures ReportsMatch(w')
  {
    var n := |w.reports|;
    forall i | 0 <= i < |w'.inspections| && w'.inspections[i].status == Completed
      ensures HasReport(w', i)
    {
      if i == id {
        assert w'.reports[n].inspectionId == i;
      } else {
        assert HasReport(w, i);
        var k :| 0 <= k < n && w.reports[k].inspectionId == i;
        assert w'.reports[k].inspectionId == i;
      }
    }
    forall k | 0 <= k < |w'.reports|
      ensures ReportFits(w', w'.reports[k])
      ensures k < n ==> w'.reports[k].inspectionId != id
    {
      if k < n {
        assert ReportFits(w, w.reports[k]);
      }
    }
  }

  lemma CompletingKeepsMatch(w: World, id: Id, dto: CompleteDto, inspectorId: string)
    requires ReportsMatch(w)
    ensures ReportsMatch(CompleteInspection(w, id, dto, inspectorId).world)
  {
    if id < |w.inspections| && w.inspections[id].status == Scheduled {
      var w' := CompleteInspection(w, id, dto, inspectorId).world;
      CompletionKeepsMatch(w, w', id, w'.reports[|w.reports|]);
    }
  }

  lemma StepKeepsMatch(w: World, c: Call)
    requires ReportsMatch(w)
    ensures ReportsMatch(Step(w, c))
  {
    match c
    case Scheduling(dto) => SchedulingKeepsMatch(w, dto);
    case Completing(id, dto, inspector) => CompletingKeepsMatch(w, id, dto, inspector);
    case Filing(id, passed, summary, finding, inspector) =>
      CompletingKeepsMatch(w, id, FiledDto(passed, summary, finding), inspector);
    case Assigning(id, inspector, name) => AssigningKeepsMatch(w, id, inspector, name);
    case _ => OtherCallsKeepReports(w, c);
  }

  /**
   * In every run an inspection is completed at most once: reports and completed inspections correspond one to one, with
   * the same verdict, time and certification, and no inspection is ever in progress or cancelled.
   */
  lemma {:induction false} ReportsAlwaysMatch(worlds: seq<World>, calls: seq<Call>, i: nat)
    requires Trace(worlds, calls) && i <= |calls|
    ensures ReportsMatch(worlds[i])
  {
    if i > 0 {
      ReportsAlwaysMatch(worlds, calls, i - 1);
      assert Linked(worlds, calls, i - 1);
      StepKeepsMatch(worlds[i - 1], calls[i - 1]);
    }
  }
}

/** The statuses of a certification, the twelve transitions, and what a ledger that follows them can look like. */
module Lifecycle {
  import opened Text

  datatype Status =
    | Draft
    | Submitted
    | DocumentReview
    | InspectionScheduled
    | InspectionInProgress
    | InspectionComplete
    | LabTesting
    | LabResultsReceived
    | UnderReview
    | Granted
    | Denied
    | Revoked
    | Renewed

  datatype EventType =
    | RequestSubmitted
    | ReviewStarted
    | InspectionScheduled
    | InspectionStarted
    | InspectionCompleted
    | LabRequested
    | LabResultsReceived
    | FinalReviewStarted
    | DecisionGranted
    | DecisionDenied
    | CertificateRevoked
    | CertificateRenewed

  /** One ledger entry's transition: what happened, from which status, to which. */
  datatype Edge = Edge(event: EventType, from: Status, to: Status)

  /** The status assertStatus demands before the event and the status applyTransition writes after it. */
  function EdgeOf(e: EventType): Edge {
    match e
    case RequestSubmitted => Edge(e, Draft, Submitted)
    case ReviewStarted => Edge(e, Submitted, DocumentReview)
    case InspectionScheduled => Edge(e, DocumentReview, Status.InspectionScheduled)
    case InspectionStarted => Edge(e, Status.InspectionScheduled, InspectionInProgress)
    case InspectionCompleted => Edge(e, InspectionInProgress, InspectionComplete)
    case LabRequested => Edge(e, InspectionComplete, LabTesting)
    case LabResultsReceived => Edge(e, LabTesting, Status.LabResultsReceived)
    case FinalReviewStarted => Edge(e, Status.LabResultsReceived, UnderReview)
    case DecisionGranted => Edge(e, UnderReview, Granted)
    case DecisionDenied => Edge(e, UnderReview, Denied)
    case CertificateRevoked => Edge(e, Granted, Revoked)
    case CertificateRenewed => Edge(e, Granted, Renewed)
  }

  predicate Legal(e: Edge) {
    e == EdgeOf(e.event)
  }

  /** Reads a ledger front to back from a starting status; None when a row does not start where the last one ended. */
  function Replay(edges: seq<Edge>, start: Status): Option<Status> {
    if edges == [] then Some(start)
    else if edges[0].from != start then None
    else Replay(edges[1..], edges[0].to)
  }

  lemma {:induction false} ReplaySnoc(edges: seq<Edge>, e: Edge, start: Status)
    ensures Replay(edges + [e], start) ==
            if Replay(edges, start) == Some(e.from) then Some(e.to) else None
  {
    if edges == [] {
      assert Replay([e][1..], e.to) == Some(e.to);
    } else {
      assert (edges + [e])[1..] == edges[1..] + [e];
      ReplaySnoc(edges[1..], e, edges[0].to);
    }
  }

  /** Distance from DRAFT. */
  function Rank(s: Status): nat {
    match s
    case Draft => 0
    case Submitted => 1
    case DocumentReview => 2
    case InspectionScheduled => 3
    case InspectionInProgress => 4
    case InspectionComplete => 5
    case LabTesting => 6
    case LabResultsReceived => 7
    case UnderReview => 8
    case Granted => 9
    case Denied => 9
    case Revoked => 10
    case Renewed => 10
  }

  /** The event that leads into a status; DRAFT is entered by none. */
  function Arrival(s: Status): Option<EventType> {
    match s
    case Draft => None
    case Submitted => Some(RequestSubmitted)
    case DocumentReview => Some(ReviewStarted)
    case InspectionScheduled => Some(EventType.InspectionScheduled)
    case InspectionInProgress => Some(InspectionStarted)
    case InspectionComplete => Some(InspectionCompleted)
    case LabTesting => Some(LabRequested)
    case LabResultsReceived => Some(EventType.LabResultsReceived)
    case UnderReview => Some(FinalReviewStarted)
    case Granted => Some(DecisionGranted)
    case Denied => Some(DecisionDenied)
    case Revoked => Some(CertificateRevoked)
    case Renewed => Some(CertificateRenewed)
  }

  /** The only legal ledger that ends in s. */
  function History(s: Status): (edges: seq<Edge>)
    ensures |edges| == Rank(s)
    decreases Rank(s)
  {
    match Arrival(s)
    case None => []
    case Some(e) => History(EdgeOf(e).from) + [EdgeOf(e)]
  }

  /** A sequence of legal rows replays from DRAFT to s if and only if it is the history of s. */
  lemma {:induction false} HistoryIsUnique(edges: seq<Edge>, s: Status)
    requires forall i | 0 <= i < |edges| :: Legal(edges[i])
    ensures Replay(edges, Draft) == Some(s) <==> edges == History(s)
    decreases |edges|
  {
    if edges == [] {
      assert Rank(s) == 0 ==> s == Draft;
    } else {
      var front, last := edges[..|edges| - 1], edges[|edges| - 1];
      assert edges == front + [last];
      ReplaySnoc(front, last, Draft);
      HistoryIsUnique(front, last.from);
      ArrivalOf(last.event);
      if s == last.to {
        assert History(s) == History(last.from) + [last];
      } else if edges == History(s) {
        assert Arrival(s).Some?;
        assert last == EdgeOf(Arrival(s).value);
        ArrivalLeadsTo(s);
      }
    }
  }

  lemma ArrivalOf(e: EventType)
    ensures Arrival(EdgeOf(e).to) == Some(e)
    ensures Rank(EdgeOf(e).to) == Rank(EdgeOf(e).from) + 1
  {
  }

  lemma ArrivalLeadsTo(s: Status)
    requires s != Draft
    ensures Arrival(s).Some? && EdgeOf(Arrival(s).value).to == s
  {
  }

  lemma HistoryAfter(e: EventType)
    ensures History(EdgeOf(e).to) == History(EdgeOf(e).from) + [EdgeOf(e)]
  {
    ArrivalOf(e);
  }

  /** The nine events from request to grant. */
  function GrantChain(): seq<EventType> {
    [RequestSubmitted, ReviewStarted, EventType.InspectionScheduled, InspectionStarted, InspectionCompleted,
     LabRequested, EventType.LabResultsReceived, FinalReviewStarted, DecisionGranted]
  }

  function Events(edges: seq<Edge>): (events: seq<EventType>)
    ensures |events| == |edges|
  {
    seq(|edges|, i requires 0 <= i < |edges| => edges[i].event)
  }

  lemma EventsSnoc(edges: seq<Edge>, last: Edge)
    ensures Events(edges + [last]) == Events(edges) + [last.event]
  {
  }

  /** The statuses on the way to GRANTED, in order of rank. */
  function Ladder(k: nat): Status
    requires k <= 9
    ensures Rank(Ladder(k)) == k
    ensures k > 0 ==> EdgeOf(GrantChain()[k - 1]) == Edge(GrantChain()[k - 1], Ladder(k - 1), Ladder(k))
  {
    [Draft, Submitted, DocumentReview, Status.InspectionScheduled, InspectionInProgress, InspectionComplete,
     LabTesting, Status.LabResultsReceived, UnderReview, Granted][k]
  }

  /** A granted certification's history is exactly the nine-step chain, in order. */
  lemma HistoryOfGranted()
    ensures Events(History(Granted)) == GrantChain()
  {
    assert Ladder(9) == Granted;
  }
}

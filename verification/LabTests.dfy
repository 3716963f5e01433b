/** Lab results against a product type's parameters, and what recording a result writes and publishes. */
module LabTests {
  import opened Text

  // ----- Values as JavaScript sees them -----

  datatype Numeric = NotANumber | MinusInfinity | Finite(value: real) | PlusInfinity

  datatype Value = Num(n: Numeric) | Str(s: string) | Null

  predicate Below(n: Numeric, bound: real) {
    n.MinusInfinity? || (n.Finite? && n.value < bound)
  }

  predicate Above(n: Numeric, bound: real) {
    n.PlusInfinity? || (n.Finite? && n.value > bound)
  }

  /** Number(string) and String(number), supplied by the language. */
  datatype Conversions = Conversions(toNumber: string -> Numeric, toText: Numeric -> string)

  function NumberOf(js: Conversions, v: Value): Numeric
    requires !v.Null?
  {
    if v.Num? then v.n else js.toNumber(v.s)
  }

  function TextOf(js: Conversions, v: Value): string
    requires !v.Null?
  {
    if v.Num? then js.toText(v.n) else v.s
  }

  /** kind is the optional type field, options the optional list of enum values. */
  datatype Parameter = Parameter(
    name: string, unit: string, minValue: Option<real>, maxValue: Option<real>, kind: Option<string>,
    options: Option<seq<string>>)

  datatype Reason =
    | Missing
    | NotAmong(options: seq<string>, got: string)
    | NotNumeric(given: Value)
    | BelowMin(value: Numeric, bound: real)
    | AboveMax(value: Numeric, bound: real)

  datatype Failure = Failure(parameter: Parameter, reason: Reason)

  type Measurements = map<string, Value>

  // ----- What conforming means -----

  predicate Present(p: Parameter, values: Measurements) {
    p.name in values && !values[p.name].Null?
  }

  predicate IsEnum(p: Parameter) {
    p.kind == Some("enum") && p.options.Some?
  }

  /** min <= n <= max for the bounds that are given; no number is out of an absent bound. */
  predicate InRange(p: Parameter, n: Numeric) {
    match n
    case NotANumber => false
    case MinusInfinity => p.minValue.None?
    case PlusInfinity => p.maxValue.None?
    case Finite(x) =>
      (p.minValue.Some? ==> p.minValue.value <= x) && (p.maxValue.Some? ==> x <= p.maxValue.value)
  }

  /** Present, and one of the listed values or a number within the bounds that are given. */
  predicate Conforms(js: Conversions, p: Parameter, values: Measurements) {
    && Present(p, values)
    && (if IsEnum(p) then TextOf(js, values[p.name]) in p.options.value
        else InRange(p, NumberOf(js, values[p.name])))
  }

  function BoundFailures(p: Parameter, n: Numeric): seq<Failure> {
    (if p.minValue.Some? && Below(n, p.minValue.value) then [Failure(p, BelowMin(n, p.minValue.value))] else []) +
    (if p.maxValue.Some? && Above(n, p.maxValue.value) then [Failure(p, AboveMax(n, p.maxValue.value))] else [])
  }

  function FailuresOf(js: Conversions, p: Parameter, values: Measurements): seq<Failure> {
    if !Present(p, values) then [Failure(p, Missing)]
    else
      var v := values[p.name];
      if IsEnum(p) then
        if TextOf(js, v) in p.options.value then [] else [Failure(p, NotAmong(p.options.value, TextOf(js, v)))]
      else if NumberOf(js, v) == NotANumber then [Failure(p, NotNumeric(v))]
      else BoundFailures(p, NumberOf(js, v))
  }

  function AllFailures(js: Conversions, ps: seq<Parameter>, values: Measurements): seq<Failure> {
    if ps == [] then []
    else AllFailures(js, ps[..|ps| - 1], values) + FailuresOf(js, ps[|ps| - 1], values)
  }

  /** No entry for a conforming parameter, one for another - two only when it lies outside both, crossed, bounds. */
  lemma EntriesPerParameter(js: Conversions, p: Parameter, values: Measurements)
    ensures FailuresOf(js, p, values) == [] <==> Conforms(js, p, values)
    ensures |FailuresOf(js, p, values)| <= 2
    ensures |FailuresOf(js, p, values)| == 2 <==>
            Present(p, values) && !IsEnum(p) && p.minValue.Some? && p.maxValue.Some? &&
            Below(NumberOf(js, values[p.name]), p.minValue.value) &&
            Above(NumberOf(js, values[p.name]), p.maxValue.value)
    ensures |FailuresOf(js, p, values)| == 2 ==> p.maxValue.value < p.minValue.value
    ensures forall f | f in FailuresOf(js, p, values) :: f.parameter == p
  {
  }

  predicate AllConform(js: Conversions, ps: seq<Parameter>, values: Measurements) {
    forall i | 0 <= i < |ps| :: Conforms(js, ps[i], values)
  }

  /** No failure at all exactly when every parameter conforms. */
  lemma {:induction false} NoFailuresIff(js: Conversions, ps: seq<Parameter>, values: Measurements)
    ensures AllFailures(js, ps, values) == [] <==> AllConform(js, ps, values)
  {
    if ps != [] {
      var front, last := ps[..|ps| - 1], ps[|ps| - 1];
      NoFailuresIff(js, front, values);
      EntriesPerParameter(js, last, values);
      assert forall i | 0 <= i < |front| :: ps[i] == front[i];
      if AllConform(js, ps, values) {
        assert Conforms(js, ps[|ps| - 1], values);
        assert forall i | 0 <= i < |front| :: Conforms(js, ps[i], values);
      }
    }
  }

  /** For each entry of the failure list, the position of the parameter it is about. */
  function Owners(js: Conversions, ps: seq<Parameter>, values: Measurements): (owners: seq<nat>)
    ensures |owners| == |AllFailures(js, ps, values)|
    ensures forall k | 0 <= k < |owners| :: owners[k] < |ps|
  {
    if ps == [] then []
    else
      Owners(js, ps[..|ps| - 1], values) +
      seq(|FailuresOf(js, ps[|ps| - 1], values)|, _ => |ps| - 1)
  }

  /** Entries come in parameter order and name their parameter. */
  lemma {:induction false} FailuresInOrder(js: Conversions, ps: seq<Parameter>, values: Measurements)
    ensures var failures, owners := AllFailures(js, ps, values), Owners(js, ps, values);
            && (forall j, k | 0 <= j < k < |owners| :: owners[j] <= owners[k])
            && (forall k | 0 <= k < |owners| :: failures[k].parameter == ps[owners[k]])
  {
    if ps != [] {
      var front, last := ps[..|ps| - 1], ps[|ps| - 1];
      FailuresInOrder(js, front, values);
      EntriesPerParameter(js, last, values);
      var owners, failures := Owners(js, ps, values), AllFailures(js, ps, values);
      var few := AllFailures(js, front, values);
      forall k | 0 <= k < |owners|
        ensures failures[k].parameter == ps[owners[k]]
      {
        if k < |few| {
          assert owners[k] == Owners(js, front, values)[k];
        } else {
          assert failures[k] == FailuresOf(js, last, values)[k - |few|];
          assert failures[k] in FailuresOf(js, last, values);
        }
      }
    }
  }

  function Entries(owners: seq<nat>, i: nat): nat {
    if owners == [] then 0
    else Entries(owners[..|owners| - 1], i) + if owners[|owners| - 1] == i then 1 else 0
  }

  lemma {:induction false} EntriesConcat(a: seq<nat>, n: nat, x: nat, i: nat)
    ensures Entries(a + seq(n, _ => x), i) == Entries(a, i) + if x == i then n else 0
  {
    if n == 0 {
      assert a + seq(n, _ => x) == a;
    } else {
      EntriesConcat(a, n - 1, x, i);
      assert (a + seq(n, _ => x))[..|a| + n - 1] == a + seq(n - 1, _ => x);
    }
  }

  lemma {:induction false} EntriesNone(owners: seq<nat>, i: nat)
    requires forall k | 0 <= k < |owners| :: owners[k] != i
    ensures Entries(owners, i) == 0
  {
    if owners != [] {
      EntriesNone(owners[..|owners| - 1], i);
    }
  }

  /** Each parameter has exactly its own entries in the list: none if it conforms, one or two if not. */
  lemma {:induction false} EntriesOfEach(js: Conversions, ps: seq<Parameter>, values: Measurements, i: nat)
    requires i < |ps|
    ensures Entries(Owners(js, ps, values), i) == |FailuresOf(js, ps[i], values)|
    ensures Entries(Owners(js, ps, values), i) == 0 <==> Conforms(js, ps[i], values)
    ensures Entries(Owners(js, ps, values), i) <= 2
  {
    var front, last := ps[..|ps| - 1], ps[|ps| - 1];
    EntriesPerParameter(js, ps[i], values);
    EntriesConcat(Owners(js, front, values), |FailuresOf(js, last, values)|, |ps| - 1, i);
    if i < |front| {
      EntriesOfEach(js, front, values, i);
    } else {
      EntriesNone(Owners(js, front, values), i);
    }
  }

  lemma NextFailures(js: Conversions, ps: seq<Parameter>, i: nat, values: Measurements)
    requires i < |ps|
    ensures AllFailures(js, ps[..i + 1], values) == AllFailures(js, ps[..i], values) + FailuresOf(js, ps[i], values)
  {
    assert ps[..i + 1][..i] == ps[..i];
  }

  // ----- Failure texts -----

  /** options.join(', ') */
  function Joined(options: seq<string>): string {
    if options == [] then []
    else if |options| == 1 then options[0]
    else options[0] + ", " + Joined(options[1..])
  }

  /** The entry stored and published for a failure. */
  function FailureText(js: Conversions, f: Failure): string
    requires f.reason.NotNumeric? ==> !f.reason.given.Null?
  {
    var unit := f.parameter.unit;
    f.parameter.name + ": " +
    match f.reason
    case Missing => "missing"
    case NotAmong(options, got) => "expected one of [" + Joined(options) + "], got " + got
    case NotNumeric(given) => "expected numeric value, got " + TextOf(js, given)
    case BelowMin(n, bound) =>
      js.toText(n) + " " + unit + " < min " + js.toText(Finite(bound)) + " " + unit
    case AboveMax(n, bound) =>
      js.toText(n) + " " + unit + " > max " + js.toText(Finite(bound)) + " " + unit
  }

  predicate Printable(failures: seq<Failure>) {
    forall i | 0 <= i < |failures| :: failures[i].reason.NotNumeric? ==> !failures[i].reason.given.Null?
  }

  function Texts(js: Conversions, failures: seq<Failure>): (texts: seq<string>)
    requires Printable(failures)
    ensures |texts| == |failures|
  {
    seq(|failures|, i requires 0 <= i < |failures| => FailureText(js, failures[i]))
  }

  lemma {:induction false} FailuresArePrintable(js: Conversions, ps: seq<Parameter>, values: Measurements)
    ensures Printable(AllFailures(js, ps, values))
  {
    if ps != [] {
      FailuresArePrintable(js, ps[..|ps| - 1], values);
    }
  }

  /** The texts of all failures, in order. */
  function FailureTexts(js: Conversions, ps: seq<Parameter>, values: Measurements): (texts: seq<string>)
    ensures |texts| == |AllFailures(js, ps, values)|
  {
    FailuresArePrintable(js, ps, values);
    Texts(js, AllFailures(js, ps, values))
  }

  /** Each text names the parameter it is about, in parameter order. */
  lemma TextsNameParameters(js: Conversions, ps: seq<Parameter>, values: Measurements, k: nat)
    requires k < |FailureTexts(js, ps, values)|
    ensures k < |Owners(js, ps, values)|
    ensures ps[Owners(js, ps, values)[k]].name + ": " <= FailureTexts(js, ps, values)[k]
  {
    FailuresInOrder(js, ps, values);
    FailuresArePrintable(js, ps, values);
  }

  lemma TextsConcat(js: Conversions, a: seq<Failure>, b: seq<Failure>)
    requires Printable(a) && Printable(b)
    ensures Printable(a + b) && Texts(js, a + b) == Texts(js, a) + Texts(js, b)
  {
    forall i | 0 <= i < |a + b|
      ensures (a + b)[i].reason.NotNumeric? ==> !(a + b)[i].reason.given.Null?
    {
      assert (a + b)[i] == if i < |a| then a[i] else b[i - |a|];
    }
  }

  lemma NoTextsIff(js: Conversions, ps: seq<Parameter>, values: Measurements)
    ensures FailureTexts(js, ps, values) == [] <==> AllConform(js, ps, values)
  {
    NoFailuresIff(js, ps, values);
  }

  /** The texts one parameter adds, case by case. */
  function TextsOf(js: Conversions, p: Parameter, values: Measurements): seq<string> {
    if !Present(p, values) then [FailureText(js, Failure(p, Missing))]
    else
      var v := values[p.name];
      if IsEnum(p) then
        if TextOf(js, v) in p.options.value then []
        else [FailureText(js, Failure(p, NotAmong(p.options.value, TextOf(js, v))))]
      else if NumberOf(js, v) == NotANumber then [FailureText(js, Failure(p, NotNumeric(v)))]
      else BoundTexts(js, p, NumberOf(js, v))
  }

  function BoundTexts(js: Conversions, p: Parameter, n: Numeric): seq<string> {
    (if p.minValue.Some? && Below(n, p.minValue.value)
     then [FailureText(js, Failure(p, BelowMin(n, p.minValue.value)))] else []) +
    (if p.maxValue.Some? && Above(n, p.maxValue.value)
     then [FailureText(js, Failure(p, AboveMax(n, p.maxValue.value)))] else [])
  }

  lemma TextsOfFailures(js: Conversions, p: Parameter, values: Measurements)
    ensures Printable(FailuresOf(js, p, values)) && Texts(js, FailuresOf(js, p, values)) == TextsOf(js, p, values)
  {
  }

  /** One more parameter adds its own texts at the end. */
  lemma NextTexts(js: Conversions, ps: seq<Parameter>, i: nat, values: Measurements)
    requires i < |ps|
    ensures FailureTexts(js, ps[..i + 1], values) == FailureTexts(js, ps[..i], values) + TextsOf(js, ps[i], values)
  {
    NextFailures(js, ps, i, values);
    FailuresArePrintable(js, ps[..i], values);
    TextsOfFailures(js, ps[i], values);
    TextsConcat(js, AllFailures(js, ps[..i], values), FailuresOf(js, ps[i], values));
  }

  /** String(v) */
  predicate Reads(js: Conversions, v: Value, text: string) {
    match v
    case Num(n) => text == js.toText(n)
    case Str(s) => text == s
    case Null => false
  }

  /** What the texts say of a parameter that is absent or not among its options. */
  lemma TextsSayMissing(js: Conversions, p: Parameter, values: Measurements, text: string)
    ensures p.name !in values || values[p.name] == Null ==> TextsOf(js, p, values) == [p.name + ": " + "missing"]
    ensures p.name in values && Reads(js, values[p.name], text) && p.kind == Some("enum") && p.options.Some? ==>
              TextsOf(js, p, values) ==
              if text in p.options.value then []
              else [p.name + ": " + ("expected one of [" + Joined(p.options.value) + "], got " + text)]
  {
  }

  /** The options stand in order, separated by a comma and a space. */
  lemma JoinedSays(a: string, rest: seq<string>)
    ensures Joined([]) == [] && Joined([a]) == a
    ensures rest != [] ==> Joined([a] + rest) == a + ", " + Joined(rest)
  {
    assert ([a] + rest)[1..] == rest;
  }

  /** What the texts say of a measured value: that it is no number, or which bound it misses, with the unit. */
  lemma TextsSayBounds(js: Conversions, p: Parameter, values: Measurements, text: string)
    requires p.name in values && Reads(js, values[p.name], text) && !(p.kind == Some("enum") && p.options.Some?)
    ensures var n := if values[p.name].Num? then values[p.name].n else js.toNumber(values[p.name].s);
            var shown := js.toText(n) + " " + p.unit;
            match n
            case NotANumber => TextsOf(js, p, values) == [p.name + ": " + ("expected numeric value, got " + text)]
            case Finite(x) =>
              TextsOf(js, p, values) ==
              (if p.minValue.Some? && x < p.minValue.value
               then [p.name + ": " + (shown + " < min " + js.toText(Finite(p.minValue.value)) + " " + p.unit)]
               else []) +
              (if p.maxValue.Some? && x > p.maxValue.value
               then [p.name + ": " + (shown + " > max " + js.toText(Finite(p.maxValue.value)) + " " + p.unit)]
               else [])
            case _ => true
  {
  }

  // ----- The service -----

  datatype LabTestStatus = Submitted | Completed

  datatype LabTest = LabTest(
    batchId: string, cooperativeId: string, productTypeCode: string, laboratoryId: Option<string>, submittedAt: nat,
    submittedBy: string, expectedResultDate: Option<string>, status: LabTestStatus)

  datatype LabTestResult = LabTestResult(
    labTestId: nat, batchId: string, productTypeCode: string, passed: bool, testValues: Measurements,
    failedParameters: seq<string>, technicianName: string, technicianId: string, laboratoryName: Option<string>,
    completedAt: nat)

  datatype CompletedEvent = CompletedEvent(
    labTestId: nat, batchId: string, productTypeCode: string, passed: bool, failedParameters: seq<string>,
    technician: string, completedAt: nat)

  datatype SubmitDto = SubmitDto(batchId: string, laboratoryId: Option<string>, expectedResultDate: Option<string>)

  datatype RecordDto = RecordDto(
    labTestId: nat, testValues: Measurements, technicianName: Option<string>, laboratoryName: Option<string>)

  datatype BatchStatus = Created | InLab | LabPassed | LabFailed

  datatype Batch = Batch(productTypeCode: string, status: BatchStatus)

  function EventOf(r: LabTestResult): CompletedEvent {
    CompletedEvent(r.labTestId, r.batchId, r.productTypeCode, r.passed, r.failedParameters, r.technicianName,
                   r.completedAt)
  }

  /** The texts stored for a product type; an unknown one has nothing to check. */
  function Verdict(js: Conversions, productTypes: map<string, seq<Parameter>>, code: string, values: Measurements)
    : seq<string>
  {
    if code in productTypes then FailureTexts(js, productTypes[code], values) else []
  }

  /** The verdict of the latest result for a batch. */
  function LastVerdict(results: seq<LabTestResult>, batchId: string): Option<bool> {
    if results == [] then None
    else if results[|results| - 1].batchId == batchId then Some(results[|results| - 1].passed)
    else LastVerdict(results[..|results| - 1], batchId)
  }

  lemma LastVerdictSnoc(results: seq<LabTestResult>, r: LabTestResult, batchId: string)
    ensures LastVerdict(results + [r], batchId) ==
            if r.batchId == batchId then Some(r.passed) else LastVerdict(results, batchId)
  {
    assert (results + [r])[..|results|] == results;
  }

  predicate BatchAgrees(results: seq<LabTestResult>, batchId: string, status: BatchStatus) {
    && (status == LabPassed ==> LastVerdict(results, batchId) == Some(true))
    && (status == LabFailed ==> LastVerdict(results, batchId) == Some(false))
  }

  /** Results, events and batch statuses tell one story. */
  predicate OneStory(results: seq<LabTestResult>, published: seq<CompletedEvent>, batches: map<string, Batch>) {
    && |published| == |results|
    && (forall i | 0 <= i < |results| ::
          published[i] == EventOf(results[i]) && (results[i].passed <==> results[i].failedParameters == []))
    && (forall b | b in batches :: BatchAgrees(results, b, batches[b].status))
  }

  /** The batch table after a verdict; a test of an unknown batch changes nothing. */
  function Judged(batches: map<string, Batch>, batchId: string, passed: bool): map<string, Batch> {
    if batchId in batches
    then batches[batchId := batches[batchId].(status := if passed then LabPassed else LabFailed)]
    else batches
  }

  lemma RecordingKeepsStory(results: seq<LabTestResult>, published: seq<CompletedEvent>, batches: map<string, Batch>,
                            r: LabTestResult)
    requires OneStory(results, published, batches) && (r.passed <==> r.failedParameters == [])
    ensures OneStory(results + [r], published + [EventOf(r)], Judged(batches, r.batchId, r.passed))
  {
    var after := Judged(batches, r.batchId, r.passed);
    forall b | b in after
      ensures BatchAgrees(results + [r], b, after[b].status)
    {
      LastVerdictSnoc(results, r, b);
      assert b in batches && BatchAgrees(results, b, batches[b].status);
    }
  }

  // ----- Runs -----

  datatype LabState = LabState(
    labTests: seq<LabTest>, results: seq<LabTestResult>, batches: map<string, Batch>, published: seq<CompletedEvent>)

  datatype LabCall =
    | Submit(dto: SubmitDto, cooperativeId: string, submittedBy: string, now: nat)
    | Record(record: RecordDto, technicianId: string, recordedAt: nat)

  /** What a test's values are checked against, and whether they conform. */
  predicate Passes(js: Conversions, productTypes: map<string, seq<Parameter>>, code: string, values: Measurements) {
    code in productTypes ==> AllConform(js, productTypes[code], values)
  }

  function ResultOf(js: Conversions, productTypes: map<string, seq<Parameter>>, test: LabTest, dto: RecordDto,
                    technicianId: string, now: nat): LabTestResult {
    LabTestResult(dto.labTestId, test.batchId, test.productTypeCode,
                  Passes(js, productTypes, test.productTypeCode, dto.testValues), dto.testValues,
                  Verdict(js, productTypes, test.productTypeCode, dto.testValues),
                  if dto.technicianName.Some? then dto.technicianName.value else "Unknown",
                  technicianId, dto.laboratoryName, now)
  }

  function Applied(js: Conversions, productTypes: map<string, seq<Parameter>>, s: LabState, c: LabCall): LabState {
    match c
    case Submit(dto, cooperativeId, submittedBy, now) =>
      if dto.batchId !in s.batches then s
      else
        var batch := s.batches[dto.batchId];
        s.(labTests := s.labTests + [LabTest(dto.batchId, cooperativeId, batch.productTypeCode, dto.laboratoryId, now,
                                             submittedBy, dto.expectedResultDate, Submitted)],
           batches := s.batches[dto.batchId := batch.(status := InLab)])
    case Record(dto, technicianId, now) =>
      if dto.labTestId >= |s.labTests| then s
      else
        var test := s.labTests[dto.labTestId];
        var result := ResultOf(js, productTypes, test, dto, technicianId, now);
        LabState(s.labTests[dto.labTestId := test.(status := Completed)], s.results + [result],
                 Judged(s.batches, test.batchId, result.passed), s.published + [EventOf(result)])
  }

  ghost predicate LabLinked(js: Conversions, productTypes: map<string, seq<Parameter>>, states: seq<LabState>,
                            calls: seq<LabCall>, i: nat)
    requires i < |calls| && i + 1 < |states|
  {
    states[i + 1] == Applied(js, productTypes, states[i], calls[i])
  }

  /** A run from batches that have not been to a laboratory. */
  ghost predicate LabRun(js: Conversions, productTypes: map<string, seq<Parameter>>, states: seq<LabState>,
                         calls: seq<LabCall>) {
    && |states| == |calls| + 1
    && states[0].labTests == [] && states[0].results == [] && states[0].published == []
    && (forall b | b in states[0].batches :: states[0].batches[b].status == Created)
    && forall i | 0 <= i < |calls| :: LabLinked(js, productTypes, states, calls, i)
  }

  /** The call is about the batch: it sends a test of it to a laboratory, or records one. */
  predicate Touches(s: LabState, c: LabCall, b: string) {
    match c
    case Submit(dto, _, _, _) => dto.batchId == b
    case Record(dto, _, _) => dto.labTestId < |s.labTests| && s.labTests[dto.labTestId].batchId == b
  }

  /** What one call does to a batch; no other batch changes, and no batch comes or goes. */
  lemma BatchAfter(js: Conversions, productTypes: map<string, seq<Parameter>>, s: LabState, c: LabCall, b: string)
    ensures b in s.batches <==> b in Applied(js, productTypes, s, c).batches
    ensures b in s.batches ==>
              var after := Applied(js, productTypes, s, c).batches[b];
              && after.productTypeCode == s.batches[b].productTypeCode
              && after.status ==
                 if !Touches(s, c, b) then s.batches[b].status
                 else if c.Submit? then InLab
                 else if Passes(js, productTypes, s.labTests[c.record.labTestId].productTypeCode, c.record.testValues)
                 then LabPassed else LabFailed
  {
  }

  /**
   * In every run a batch stands where the last call about it put it: in the laboratory after a submission, passed or
   * failed after a result by whether that result's values conform, and untouched as it was created.
   */
  lemma {:induction false} BatchTold(js: Conversions, productTypes: map<string, seq<Parameter>>, states: seq<LabState>,
                                     calls: seq<LabCall>, n: nat, b: string) returns (i: nat)
    requires LabRun(js, productTypes, states, calls) && n <= |calls| && b in states[n].batches
    ensures var status := states[n].batches[b].status;
            if status == Created then forall k | 0 <= k < n :: !Touches(states[k], calls[k], b)
            else
              && i < n && Touches(states[i], calls[i], b)
              && (forall k | i < k < n :: !Touches(states[k], calls[k], b))
              && (status == InLab <==> calls[i].Submit?)
              && (calls[i].Record? ==>
                    var dto := calls[i].record;
                    && dto.labTestId < |states[i].labTests|
                    && (status == LabPassed <==>
                        Passes(js, productTypes, states[i].labTests[dto.labTestId].productTypeCode, dto.testValues)))
  {
    if n == 0 {
      i := 0;
    } else {
      assert LabLinked(js, productTypes, states, calls, n - 1);
      BatchAfter(js, productTypes, states[n - 1], calls[n - 1], b);
      if Touches(states[n - 1], calls[n - 1], b) {
        i := n - 1;
      } else {
        i := BatchTold(js, productTypes, states, calls, n - 1, b);
      }
    }
  }

  class LabTestService {
    const js: Conversions
    var productTypes: map<string, seq<Parameter>>
    var labTests: seq<LabTest>
    var results: seq<LabTestResult>
    var batches: map<string, Batch>
    var published: seq<CompletedEvent>

    ghost predicate Valid()
      reads this
    {
      OneStory(results, published, batches)
    }

    function View(): LabState
      reads this
    {
      LabState(labTests, results, batches, published)
    }

    constructor (js: Conversions, productTypes: map<string, seq<Parameter>>, batches: map<string, Batch>)
      requires forall b | b in batches :: batches[b].status == Created
      ensures Valid() && this.js == js && this.productTypes == productTypes && this.batches == batches
      ensures labTests == [] && results == [] && published == []
    {
      this.js, this.productTypes, this.batches := js, productTypes, batches;
      labTests, results, published := [], [], [];
    }

    method SubmitLabTest(dto: SubmitDto, cooperativeId: string, submittedBy: string, now: nat)
      returns (id: Option<nat>)
      requires Valid()
      modifies this`labTests, this`batches
      ensures Valid()
      ensures id.None? <==> dto.batchId !in old(batches)
      ensures id.None? ==> labTests == old(labTests) && batches == old(batches)
      ensures id.Some? ==>
                var batch := old(batches)[dto.batchId];
                && id.value == |old(labTests)|
                && labTests == old(labTests) +
                   [LabTest(dto.batchId, cooperativeId, batch.productTypeCode, dto.laboratoryId, now, submittedBy,
                            dto.expectedResultDate, Submitted)]
                && batches == old(batches)[dto.batchId := batch.(status := InLab)]
      ensures View() == Applied(js, productTypes, old(View()), Submit(dto, cooperativeId, submittedBy, now))
    {
      if dto.batchId !in batches {
        return None;
      }
      var batch := batches[dto.batchId];
      id := Some(|labTests|);
      labTests := labTests + [
        LabTest(dto.batchId, cooperativeId, batch.productTypeCode, dto.laboratoryId, now, submittedBy,
                dto.expectedResultDate, Submitted)];
      batches := batches[dto.batchId := batch.(status := InLab)];
    }

    /** The loop over the parameters. */
    method ValidateLabTestParameters(productTypeCode: string, values: Measurements)
      returns (passed: bool, failed: seq<string>)
      ensures failed == Verdict(js, productTypes, productTypeCode, values)
      ensures passed <==>
              productTypeCode in productTypes ==> AllConform(js, productTypes[productTypeCode], values)
      ensures passed <==> failed == []
    {
      if productTypeCode !in productTypes {
        return true, [];
      }
      var ps := productTypes[productTypeCode];
      failed := [];
      for i := 0 to |ps|
        invariant failed == FailureTexts(js, ps[..i], values)
      {
        var p := ps[i];
        NextTexts(js, ps, i, values);
        if p.name !in values || values[p.name].Null? {
          failed := failed + [FailureText(js, Failure(p, Missing))];
          continue;
        }
        var value := values[p.name];
        if p.kind == Some("enum") && p.options.Some? {
          if TextOf(js, value) !in p.options.value {
            failed := failed + [FailureText(js, Failure(p, NotAmong(p.options.value, TextOf(js, value))))];
          }
          continue;
        }
        var numValue := NumberOf(js, value);
        if numValue == NotANumber {
          failed := failed + [FailureText(js, Failure(p, NotNumeric(value)))];
          continue;
        }
        ghost var before := failed;
        if p.minValue.Some? && Below(numValue, p.minValue.value) {
          failed := failed + [FailureText(js, Failure(p, BelowMin(numValue, p.minValue.value)))];
        }
        if p.maxValue.Some? && Above(numValue, p.maxValue.value) {
          failed := failed + [FailureText(js, Failure(p, AboveMax(numValue, p.maxValue.value)))];
        }
        assert failed == before + BoundTexts(js, p, numValue);
      }
      assert ps[..|ps|] == ps;
      NoTextsIff(js, ps, values);
      passed := |failed| == 0;
    }

    method RecordResult(dto: RecordDto, technicianId: string, now: nat) returns (r: Option<LabTestResult>)
      requires Valid()
      modifies this`labTests, this`results, this`batches, this`published
      ensures Valid()
      ensures r.None? <==> dto.labTestId >= |old(labTests)|
      ensures r.None? ==>
                labTests == old(labTests) && results == old(results) && batches == old(batches) &&
                published == old(published)
      ensures r.Some? ==>
                var test, passed := old(labTests)[dto.labTestId], r.value.passed;
                && (passed <==> test.productTypeCode in productTypes ==>
                                  AllConform(js, productTypes[test.productTypeCode], dto.testValues))
                && r.value ==
                   LabTestResult(dto.labTestId, test.batchId, test.productTypeCode, passed, dto.testValues,
                                 Verdict(js, productTypes, test.productTypeCode, dto.testValues),
                                 if dto.technicianName.Some? then dto.technicianName.value else "Unknown",
                                 technicianId, dto.laboratoryName, now)
                && results == old(results) + [r.value]
                && published == old(published) + [
                     CompletedEvent(dto.labTestId, test.batchId, test.productTypeCode, passed, r.value.failedParameters,
                                    r.value.technicianName, now)]
                && labTests == old(labTests)[dto.labTestId := test.(status := Completed)]
                && batches.Keys == old(batches).Keys
                && (forall b | b in batches && b != test.batchId :: batches[b] == old(batches)[b])
                && (test.batchId in batches ==>
                      batches[test.batchId] ==
                      Batch(old(batches)[test.batchId].productTypeCode, if passed then LabPassed else LabFailed))
      ensures View() == Applied(js, productTypes, old(View()), Record(dto, technicianId, now))
    {
      if dto.labTestId >= |labTests| {
        return None;
      }
      var test := labTests[dto.labTestId];
      var passed, failed := ValidateLabTestParameters(test.productTypeCode, dto.testValues);
      var technician := if dto.technicianName.Some? then dto.technicianName.value else "Unknown";
      var result := LabTestResult(dto.labTestId, test.batchId, test.productTypeCode, passed, dto.testValues, failed,
                                  technician, technicianId, dto.laboratoryName, now);
      RecordingKeepsStory(results, published, batches, result);
      results := results + [result];
      labTests := labTests[dto.labTestId := test.(status := Completed)];
      if test.batchId in batches {
        batches := batches[test.batchId := batches[test.batchId].(status := if passed then LabPassed else LabFailed)];
      }
      published := published + [EventOf(result)];
      r := Some(result);
    }
  }
}

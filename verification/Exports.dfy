/** The three CSV exporters over the shared row shape. */
module Exports {
  import opened Text
  import opened CertificateNumber
  import opened Lifecycle
  import opened ExportDates
  import opened Csv
  import Registry

  // ----- Printed forms of the column types -----

  function TypeName(t: CertificationType): string {
    match t
    case IGP => "IGP"
    case AOP => "AOP"
    case LabelAgricole => "LABEL_AGRICOLE"
  }

  function StatusName(s: Status): string {
    match s
    case Draft => "DRAFT"
    case Submitted => "SUBMITTED"
    case DocumentReview => "DOCUMENT_REVIEW"
    case InspectionScheduled => "INSPECTION_SCHEDULED"
    case InspectionInProgress => "INSPECTION_IN_PROGRESS"
    case InspectionComplete => "INSPECTION_COMPLETE"
    case LabTesting => "LAB_TESTING"
    case LabResultsReceived => "LAB_RESULTS_RECEIVED"
    case UnderReview => "UNDER_REVIEW"
    case Granted => "GRANTED"
    case Denied => "DENIED"
    case Revoked => "REVOKED"
    case Renewed => "RENEWED"
  }

  function Padded(n: nat, width: nat): (s: string)
    ensures AllDigits(s)
  {
    ValueOfPadded(n, width);
    PadStart(Decimal(n), width)
  }

  function IsoDay(d: Date): string {
    (if d.year <= 9999 then Padded(d.year, 4) else ['+'] + Padded(d.year, 6)) + ['-'] +
    Padded(d.month + 1, 2) + ['-'] + Padded(d.day, 2)
  }

  function Clock(h: nat, m: nat, s: nat, ms: nat): string {
    Padded(h, 2) + [':'] + Padded(m, 2) + [':'] + Padded(s, 2) + ['.'] + Padded(ms, 3)
  }

  function IsoTime(ms: nat): string {
    Clock(ms / 3_600_000, ms / 60_000 % 60, ms / 1000 % 60, ms % 1000)
  }

  /** Date.prototype.toISOString: years beyond 9999 are signed and six digits wide. */
  function Iso(t: nat): string {
    IsoDay(DateOf(t)) + ['T'] + IsoTime(t % MS_PER_DAY) + ['Z']
  }

  lemma DigitsAreClean(s: string)
    requires AllDigits(s)
    ensures CleanText(s)
  {
  }

  lemma CleanConcat(a: string, b: string)
    ensures CleanText(a + b) <==> CleanText(a) && CleanText(b)
  {
    if CleanText(a + b) {
      assert forall i | 0 <= i < |a| :: a[i] == (a + b)[i];
      assert forall i | 0 <= i < |b| :: b[i] == (a + b)[|a| + i];
    }
  }

  /** Numerals separated by single clean characters. */
  lemma CleanJoin(a: string, c: char, n: nat, width: nat)
    requires CleanText(a) && !Special(c)
    ensures CleanText(a + [c] + Padded(n, width))
  {
    DigitsAreClean(Padded(n, width));
    CleanConcat(a, [c]);
    CleanConcat(a + [c], Padded(n, width));
  }

  lemma IsoDayIsClean(d: Date)
    ensures CleanText(IsoDay(d))
  {
    var year := if d.year <= 9999 then Padded(d.year, 4) else ['+'] + Padded(d.year, 6);
    DigitsAreClean(Padded(d.year, 4));
    CleanJoin([], '+', d.year, 6);
    assert [] + ['+'] + Padded(d.year, 6) == ['+'] + Padded(d.year, 6);
    CleanJoin(year, '-', d.month + 1, 2);
    CleanJoin(year + ['-'] + Padded(d.month + 1, 2), '-', d.day, 2);
  }

  lemma IsoTimeIsClean(ms: nat)
    ensures CleanText(IsoTime(ms))
  {
    var hour, minute, second := ms / 3_600_000, ms / 60_000 % 60, ms / 1000 % 60;
    DigitsAreClean(Padded(hour, 2));
    CleanJoin(Padded(hour, 2), ':', minute, 2);
    CleanJoin(Padded(hour, 2) + [':'] + Padded(minute, 2), ':', second, 2);
    CleanJoin(Padded(hour, 2) + [':'] + Padded(minute, 2) + [':'] + Padded(second, 2), '.', ms % 1000, 3);
  }

  lemma IsoIsClean(t: nat)
    ensures CleanText(Iso(t))
  {
    var day, time := IsoDay(DateOf(t)), IsoTime(t % MS_PER_DAY);
    IsoDayIsClean(DateOf(t));
    IsoTimeIsClean(t % MS_PER_DAY);
    CleanConcat(day, ['T']);
    CleanConcat(day + ['T'], time);
    CleanConcat(day + ['T'] + time, ['Z']);
  }

  function IsoOrEmpty(t: Option<nat>): string {
    match t
    case None => []
    case Some(i) => Iso(i)
  }

  lemma IsoOrEmptyIsClean(t: Option<nat>)
    ensures CleanText(IsoOrEmpty(t))
  {
    if t.Some? {
      IsoIsClean(t.value);
    }
  }

  function Header(names: seq<string>): (cells: seq<Cell>)
    ensures |cells| == |names|
  {
    seq(|names|, i requires 0 <= i < |names| => Plain(names[i]))
  }

  // ----- exportComplianceReport -----

  const COMPLIANCE: seq<string> :=
    ["certificationNumber", "cooperativeName", "productTypeCode"] +
    (["regionCode", "certificationType", "currentStatus"] + ["validFrom", "validUntil", "grantedAt"])

  function ComplianceCells(c: Registry.Certification): (cells: seq<Cell>)
    ensures |cells| == 9
  {
    var from := if c.grant.Some? then Some(c.grant.value.validFrom) else None;
    var until := if c.grant.Some? then Some(c.grant.value.validUntil) else None;
    var at := if c.grant.Some? then Some(c.grant.value.at) else None;
    [Plain(OrEmpty(c.certificationNumber)), Quoted(c.terms.cooperativeName), Plain(c.terms.productTypeCode),
     Plain(c.terms.regionCode), Plain(TypeName(c.terms.certificationType)), Plain(StatusName(c.currentStatus)),
     Plain(IsoOrEmpty(from)), Plain(IsoOrEmpty(until)), Plain(IsoOrEmpty(at))]
  }

  function ComplianceBody(certs: seq<Registry.Certification>): (rows: seq<seq<Cell>>)
    ensures |rows| == |certs| && Wide(rows)
  {
    seq(|certs|, i requires 0 <= i < |certs| => ComplianceCells(certs[i]))
  }

  function ComplianceRows(certs: seq<Registry.Certification>): (rows: seq<seq<Cell>>)
    ensures |rows| == |certs| + 1 && Wide(rows)
  {
    [Header(COMPLIANCE)] + ComplianceBody(certs)
  }

  function ExportComplianceReport(certs: seq<Registry.Certification>): string {
    PrintRows(ComplianceRows(certs))
  }

  lemma TypeNameClean(t: CertificationType)
    ensures CleanText(TypeName(t))
  {
  }

  lemma EarlyStatusNameClean(s: Status)
    requires Rank(s) <= 4
    ensures CleanText(StatusName(s))
  {
  }

  lemma MiddleStatusNameClean(s: Status)
    requires 4 < Rank(s) <= 7
    ensures CleanText(StatusName(s))
  {
  }

  lemma LateStatusNameClean(s: Status)
    requires Rank(s) > 7
    ensures CleanText(StatusName(s))
  {
  }

  lemma StatusNameClean(s: Status)
    ensures CleanText(StatusName(s))
  {
    if Rank(s) <= 4 {
      EarlyStatusNameClean(s);
    } else if Rank(s) <= 7 {
      MiddleStatusNameClean(s);
    } else {
      LateStatusNameClean(s);
    }
  }

  /** The unquoted free-text columns of the report. */
  predicate PlainCertification(c: Registry.Certification) {
    && CleanText(OrEmpty(c.certificationNumber)) && CleanText(c.terms.productTypeCode) && CleanText(c.terms.regionCode)
  }

  lemma ComplianceRowClean(c: Registry.Certification)
    ensures CleanRow(ComplianceCells(c)) <==> PlainCertification(c)
  {
    var cells := ComplianceCells(c);
    TypeNameClean(c.terms.certificationType);
    StatusNameClean(c.currentStatus);
    IsoOrEmptyIsClean(if c.grant.Some? then Some(c.grant.value.validFrom) else None);
    IsoOrEmptyIsClean(if c.grant.Some? then Some(c.grant.value.validUntil) else None);
    IsoOrEmptyIsClean(if c.grant.Some? then Some(c.grant.value.at) else None);
    assert CleanRow(cells) <==> CleanCell(cells[0]) && CleanCell(cells[2]) && CleanCell(cells[3]);
  }

  lemma HeaderConcat(a: seq<string>, b: seq<string>)
    requires CleanRow(Header(a)) && CleanRow(Header(b))
    ensures CleanRow(Header(a + b))
  {
    assert Header(a + b) == Header(a) + Header(b);
  }

  lemma HeaderThree(a: string, b: string, c: string)
    requires CleanText(a) && CleanText(b) && CleanText(c)
    ensures CleanRow(Header([a, b, c]))
  {
  }

  lemma NumberColumnClean()
    ensures CleanText("certificationNumber")
  {
  }

  lemma IdentityColumnsClean()
    ensures CleanRow(Header(["certificationNumber", "cooperativeName", "productTypeCode"]))
  {
    NumberColumnClean();
    assert CleanText("cooperativeName");
    assert CleanText("productTypeCode");
    HeaderThree("certificationNumber", "cooperativeName", "productTypeCode");
  }

  lemma KindColumnsClean()
    ensures CleanRow(Header(["regionCode", "certificationType", "currentStatus"]))
  {
    assert CleanText("regionCode");
    assert CleanText("certificationType");
    assert CleanText("currentStatus");
    HeaderThree("regionCode", "certificationType", "currentStatus");
  }

  lemma DateColumnsClean()
    ensures CleanRow(Header(["validFrom", "validUntil", "grantedAt"]))
  {
  }

  lemma ComplianceHeaderClean()
    ensures CleanRow(Header(COMPLIANCE))
  {
    IdentityColumnsClean();
    KindColumnsClean();
    DateColumnsClean();
    var kinds := ["regionCode", "certificationType", "currentStatus"];
    var dates := ["validFrom", "validUntil", "grantedAt"];
    HeaderConcat(kinds, dates);
    HeaderConcat(["certificationNumber", "cooperativeName", "productTypeCode"], kinds + dates);
  }

  /** Whatever the cooperatives are called, the report reads back exactly when numbers and codes are plain. */
  lemma ComplianceRoundTripIff(certs: seq<Registry.Certification>)
    ensures ReadTable(ExportComplianceReport(certs)) == Some(TableOf(ComplianceRows(certs))) <==>
            forall i | 0 <= i < |certs| :: PlainCertification(certs[i])
  {
    var body := ComplianceBody(certs);
    RoundTripIff(ComplianceRows(certs));
    ComplianceHeaderClean();
    forall i | 0 <= i < |certs|
      ensures CleanRow(body[i]) <==> PlainCertification(certs[i])
    {
      ComplianceRowClean(certs[i]);
    }
    HeadedRowsClean(Header(COMPLIANCE), body);
  }

  lemma HeadedRowsClean(header: seq<Cell>, body: seq<seq<Cell>>)
    requires CleanRow(header)
    ensures CleanRows([header] + body) <==> CleanRows(body)
  {
    var rows := [header] + body;
    if CleanRows(rows) {
      assert forall i | 0 <= i < |body| :: body[i] == rows[i + 1];
    }
  }

  /** A region code with a comma is enough to break the report: the column moves. */
  lemma CommaBreaksCompliance(c: Registry.Certification)
    requires c.terms.regionCode == "SOUSS,MASSA"
    ensures ReadTable(ExportComplianceReport([c])) != Some(TableOf(ComplianceRows([c])))
  {
    ComplianceRoundTripIff([c]);
    assert Special(c.terms.regionCode[5]);
    assert [c][0] == c;
  }

  // ----- exportClearancesReport -----

  datatype Clearance = Clearance(
    exportDocId: string, cooperativeName: Option<string>, productTypeCode: Option<string>,
    destinationCountry: string, hsCode: Option<string>, clearedAt: nat, status: string)

  const CLEARANCES: seq<string> :=
    ["exportDocId", "cooperativeName", "productTypeCode"] +
    (["destinationCountry", "hsCode"] + ["clearedAt", "status"])

  function ClearanceCells(r: Clearance): (cells: seq<Cell>)
    ensures |cells| == 7
  {
    [Plain(r.exportDocId), Quoted(OrEmpty(r.cooperativeName)), Plain(OrEmpty(r.productTypeCode)),
     Plain(r.destinationCountry), Plain(OrEmpty(r.hsCode)), Plain(Iso(r.clearedAt)), Plain(r.status)]
  }

  function ClearanceBody(rs: seq<Clearance>): (rows: seq<seq<Cell>>)
    ensures |rows| == |rs| && Wide(rows)
  {
    seq(|rs|, i requires 0 <= i < |rs| => ClearanceCells(rs[i]))
  }

  function ClearanceRows(rs: seq<Clearance>): (rows: seq<seq<Cell>>)
    ensures |rows| == |rs| + 1 && Wide(rows)
  {
    [Header(CLEARANCES)] + ClearanceBody(rs)
  }

  function ExportClearancesReport(rs: seq<Clearance>): string {
    PrintRows(ClearanceRows(rs))
  }

  predicate PlainClearance(r: Clearance) {
    && CleanText(r.exportDocId) && CleanText(OrEmpty(r.productTypeCode)) && CleanText(r.destinationCountry)
    && CleanText(OrEmpty(r.hsCode)) && CleanText(r.status)
  }

  lemma SevenClean(cells: seq<Cell>)
    requires |cells| == 7 && cells[1].Quoted? && CleanCell(cells[5])
    ensures CleanRow(cells) <==> CleanCell(cells[0]) && CleanCell(cells[2]) && CleanCell(cells[3]) &&
                                 CleanCell(cells[4]) && CleanCell(cells[6])
  {
  }

  lemma ClearanceRowClean(r: Clearance)
    ensures CleanRow(ClearanceCells(r)) <==> PlainClearance(r)
  {
    IsoIsClean(r.clearedAt);
    SevenClean(ClearanceCells(r));
  }

  lemma ClearancesHeaderStart()
    ensures CleanRow(Header(["exportDocId", "cooperativeName", "productTypeCode"]))
  {
  }

  lemma ClearancesHeaderMiddle()
    ensures CleanRow(Header(["destinationCountry", "hsCode"]))
  {
  }

  lemma ClearancesHeaderEnd()
    ensures CleanRow(Header(["clearedAt", "status"]))
  {
  }

  lemma ClearancesHeaderClean()
    ensures CleanRow(Header(CLEARANCES))
  {
    ClearancesHeaderStart();
    ClearancesHeaderMiddle();
    ClearancesHeaderEnd();
    HeaderConcat(["destinationCountry", "hsCode"], ["clearedAt", "status"]);
    HeaderConcat(["exportDocId", "cooperativeName", "productTypeCode"],
                 ["destinationCountry", "hsCode"] + ["clearedAt", "status"]);
  }

  lemma ClearancesRoundTripIff(rs: seq<Clearance>)
    ensures ReadTable(ExportClearancesReport(rs)) == Some(TableOf(ClearanceRows(rs))) <==>
            forall i | 0 <= i < |rs| :: PlainClearance(rs[i])
  {
    var body := ClearanceBody(rs);
    RoundTripIff(ClearanceRows(rs));
    ClearancesHeaderClean();
    forall i | 0 <= i < |rs|
      ensures CleanRow(body[i]) <==> PlainClearance(rs[i])
    {
      ClearanceRowClean(rs[i]);
    }
    HeadedRowsClean(Header(CLEARANCES), body);
  }

  // ----- exportProductRegistry -----

  datatype ProductRow = ProductRow(
    productId: string, name: string, productTypeCode: string, cooperativeId: string, regionCode: Option<string>,
    registeredAt: nat)

  const PRODUCTS: seq<string> :=
    ["productId", "name", "productTypeCode"] + ["cooperativeId", "regionCode", "registeredAt"]

  function ProductCells(r: ProductRow): (cells: seq<Cell>)
    ensures |cells| == 6
  {
    [Plain(r.productId), Quoted(r.name), Plain(r.productTypeCode), Plain(r.cooperativeId), Plain(OrEmpty(r.regionCode)),
     Plain(Iso(r.registeredAt))]
  }

  function ProductBody(rs: seq<ProductRow>): (rows: seq<seq<Cell>>)
    ensures |rows| == |rs| && Wide(rows)
  {
    seq(|rs|, i requires 0 <= i < |rs| => ProductCells(rs[i]))
  }

  function ProductRows(rs: seq<ProductRow>): (rows: seq<seq<Cell>>)
    ensures |rows| == |rs| + 1 && Wide(rows)
  {
    [Header(PRODUCTS)] + ProductBody(rs)
  }

  function ExportProductRegistry(rs: seq<ProductRow>): string {
    PrintRows(ProductRows(rs))
  }

  predicate PlainProduct(r: ProductRow) {
    && CleanText(r.productId) && CleanText(r.productTypeCode) && CleanText(r.cooperativeId)
    && CleanText(OrEmpty(r.regionCode))
  }

  lemma ProductRowClean(r: ProductRow)
    ensures CleanRow(ProductCells(r)) <==> PlainProduct(r)
  {
    IsoIsClean(r.registeredAt);
    var cells := ProductCells(r);
    assert CleanRow(cells) <==> CleanCell(cells[0]) && CleanCell(cells[2]) && CleanCell(cells[3]) &&
                                CleanCell(cells[4]);
  }

  lemma ProductsHeaderStart()
    ensures CleanRow(Header(["productId", "name", "productTypeCode"]))
  {
  }

  lemma ProductsHeaderEnd()
    ensures CleanRow(Header(["cooperativeId", "regionCode", "registeredAt"]))
  {
  }

  lemma ProductsHeaderClean()
    ensures CleanRow(Header(PRODUCTS))
  {
    ProductsHeaderStart();
    ProductsHeaderEnd();
    HeaderConcat(["productId", "name", "productTypeCode"], ["cooperativeId", "regionCode", "registeredAt"]);
  }

  lemma ProductsRoundTripIff(rs: seq<ProductRow>)
    ensures ReadTable(ExportProductRegistry(rs)) == Some(TableOf(ProductRows(rs))) <==>
            forall i | 0 <= i < |rs| :: PlainProduct(rs[i])
  {
    var body := ProductBody(rs);
    RoundTripIff(ProductRows(rs));
    ProductsHeaderClean();
    forall i | 0 <= i < |rs|
      ensures CleanRow(body[i]) <==> PlainProduct(rs[i])
    {
      ProductRowClean(rs[i]);
    }
    HeadedRowsClean(Header(PRODUCTS), body);
  }
}

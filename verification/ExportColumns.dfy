/** The three exports column by column: under each header stands the record's own value, and it can be read back. */
module ExportColumns {
  import opened Text
  import opened CertificateNumber
  import opened Lifecycle
  import opened ExportDates
  import opened Csv
  import opened Exports
  import Registry

  // ----- Readers for the printed column types -----

  function ReadType(s: string): Option<CertificationType> {
    if s == "IGP" then Some(IGP) else if s == "AOP" then Some(AOP)
    else if s == "LABEL_AGRICOLE" then Some(LabelAgricole) else None
  }

  /** The names of the thirteen statuses. */
  function ReadStatus(s: string): Option<Status> {
    if s == "DRAFT" then Some(Draft) else if s == "SUBMITTED" then Some(Submitted)
    else if s == "DOCUMENT_REVIEW" then Some(DocumentReview)
    else if s == "INSPECTION_SCHEDULED" then Some(Status.InspectionScheduled)
    else if s == "INSPECTION_IN_PROGRESS" then Some(InspectionInProgress)
    else if s == "INSPECTION_COMPLETE" then Some(InspectionComplete)
    else if s == "LAB_TESTING" then Some(LabTesting)
    else if s == "LAB_RESULTS_RECEIVED" then Some(Status.LabResultsReceived)
    else if s == "UNDER_REVIEW" then Some(UnderReview) else if s == "GRANTED" then Some(Granted)
    else if s == "DENIED" then Some(Denied) else if s == "REVOKED" then Some(Revoked)
    else if s == "RENEWED" then Some(Renewed) else None
  }

  lemma TypeReadsBack(t: CertificationType)
    ensures ReadType(TypeName(t)) == Some(t)
  {
  }

  lemma StatusReadsBack(s: Status)
    ensures ReadStatus(StatusName(s)) == Some(s)
  {
    var name := StatusName(s);
    assert |name| > 0;
  }

  // ----- Reading an instant -----

  /** The numerals of an ISO 8601 instant in UTC; a year may carry a sign. */
  datatype IsoParts = IsoParts(
    year: string, month: string, day: string, hour: string, minute: string, second: string, milli: string)

  predicate IsNumeral(s: string) {
    s != [] && AllDigits(s)
  }

  function Unsigned(year: string): string {
    if year != [] && year[0] == '+' then year[1..] else year
  }

  predicate WellFormed(p: IsoParts) {
    && IsNumeral(Unsigned(p.year)) && IsNumeral(p.month) && IsNumeral(p.day)
    && IsNumeral(p.hour) && IsNumeral(p.minute) && IsNumeral(p.second) && IsNumeral(p.milli)
  }

  /** YYYY-MM-DD */
  function DayText(p: IsoParts): string {
    p.year + ['-'] + p.month + ['-'] + p.day
  }

  /** HH:MM:SS.mmm */
  function TimeText(p: IsoParts): string {
    p.hour + [':'] + p.minute + [':'] + p.second + ['.'] + p.milli
  }

  function IsoText(p: IsoParts): string {
    DayText(p) + ['T'] + TimeText(p) + ['Z']
  }

  function Milliseconds(p: IsoParts): nat
    requires WellFormed(p)
  {
    Value(p.hour) * 3_600_000 + Value(p.minute) * 60_000 + Value(p.second) * 1000 + Value(p.milli)
  }

  /** Texts that agree around the last occurrence of a character agree on both sides. */
  lemma SplitsOnce(a: string, b: string, x: string, y: string, c: char)
    requires a + [c] + b == x + [c] + y && c !in b && c !in y
    ensures a == x && b == y
  {
    SplitLastAt(a, c, b);
    SplitLastAt(x, c, y);
  }

  lemma NotInNumeral(s: string, c: char)
    requires IsNumeral(s) && !('0' <= c <= '9')
    ensures c !in s
  {
  }

  lemma DayTextOnce(p: IsoParts, q: IsoParts)
    requires WellFormed(p) && WellFormed(q) && DayText(p) == DayText(q)
    ensures p.year == q.year && p.month == q.month && p.day == q.day
  {
    SplitsOnce(p.year + ['-'] + p.month, p.day, q.year + ['-'] + q.month, q.day, '-');
    SplitsOnce(p.year, p.month, q.year, q.month, '-');
  }

  lemma TimeTextOnce(p: IsoParts, q: IsoParts)
    requires WellFormed(p) && WellFormed(q) && TimeText(p) == TimeText(q)
    ensures p.hour == q.hour && p.minute == q.minute && p.second == q.second && p.milli == q.milli
  {
    SplitsOnce(p.hour + [':'] + p.minute + [':'] + p.second, p.milli, q.hour + [':'] + q.minute + [':'] + q.second,
               q.milli, '.');
    SplitsOnce(p.hour + [':'] + p.minute, p.second, q.hour + [':'] + q.minute, q.second, ':');
    SplitsOnce(p.hour, p.minute, q.hour, q.minute, ':');
  }

  lemma TimeTextHasNoT(p: IsoParts)
    requires WellFormed(p)
    ensures 'T' !in TimeText(p)
  {
    NotInNumeral(p.hour, 'T');
    NotInNumeral(p.minute, 'T');
    NotInNumeral(p.second, 'T');
    NotInNumeral(p.milli, 'T');
  }

  lemma DropZ(a: string, b: string)
    requires a + ['Z'] == b + ['Z']
    ensures a == b
  {
    assert (a + ['Z'])[..|a|] == a && (b + ['Z'])[..|b|] == b;
  }

  /** A text is an instant in one way only. */
  lemma IsoTextOnce(p: IsoParts, q: IsoParts)
    requires WellFormed(p) && WellFormed(q) && IsoText(p) == IsoText(q)
    ensures p == q
  {
    DropZ(DayText(p) + ['T'] + TimeText(p), DayText(q) + ['T'] + TimeText(q));
    TimeTextHasNoT(p);
    TimeTextHasNoT(q);
    SplitsOnce(DayText(p), TimeText(p), DayText(q), TimeText(q), 'T');
    DayTextOnce(p, q);
    TimeTextOnce(p, q);
  }

  lemma NumeralOfPadded(n: nat, width: nat)
    ensures IsNumeral(Padded(n, width)) && Value(Padded(n, width)) == n
  {
    ValueOfPadded(n, width);
  }

  function YearText(y: nat): string {
    if y <= 9999 then Padded(y, 4) else ['+'] + Padded(y, 6)
  }

  lemma YearReads(y: nat)
    ensures IsNumeral(Unsigned(YearText(y))) && Value(Unsigned(YearText(y))) == y
  {
    NumeralOfPadded(y, 4);
    NumeralOfPadded(y, 6);
    assert y > 9999 ==> YearText(y)[1..] == Padded(y, 6);
  }

  lemma TimeParts(ms: nat)
    ensures ms / 3_600_000 * 3_600_000 + ms / 60_000 % 60 * 60_000 + ms / 1000 % 60 * 1000 + ms % 1000 == ms
  {
    var seconds, minutes := ms / 1000, ms / 60_000;
    assert seconds / 60 == minutes && minutes / 60 == ms / 3_600_000;
  }

  function PartsOf(d: Date, h: nat, m: nat, s: nat, f: nat): IsoParts {
    IsoParts(YearText(d.year), Padded(d.month + 1, 2), Padded(d.day, 2), Padded(h, 2), Padded(m, 2), Padded(s, 2),
             Padded(f, 3))
  }

  lemma PartsRead(d: Date, h: nat, m: nat, s: nat, f: nat)
    ensures var p := PartsOf(d, h, m, s, f);
            && WellFormed(p) && Value(Unsigned(p.year)) == d.year && Value(p.month) == d.month + 1
            && Value(p.day) == d.day && Milliseconds(p) == h * 3_600_000 + m * 60_000 + s * 1000 + f
            && IsoText(p) == IsoDay(d) + ['T'] + Clock(h, m, s, f) + ['Z']
  {
    YearReads(d.year);
    NumeralOfPadded(d.month + 1, 2);
    NumeralOfPadded(d.day, 2);
    NumeralOfPadded(h, 2);
    NumeralOfPadded(m, 2);
    NumeralOfPadded(s, 2);
    NumeralOfPadded(f, 3);
  }

  /**
   * Whoever reads an exported instant as numerals between the separators of ISO 8601 reads its UTC date and the
   * milliseconds since that midnight; and it can be read so.
   */
  lemma IsoReadsBack(t: nat) returns (p: IsoParts)
    ensures WellFormed(p) && IsoText(p) == Iso(t)
    ensures Value(Unsigned(p.year)) == DateOf(t).year && Value(p.month) == DateOf(t).month + 1
    ensures Value(p.day) == DateOf(t).day && Milliseconds(p) == t % 86_400_000
    ensures forall q: IsoParts :: WellFormed(q) && IsoText(q) == Iso(t) ==> q == p
  {
    var d, ms := DateOf(t), t % 86_400_000;
    var h, m, s, f := ms / 3_600_000, ms / 60_000 % 60, ms / 1000 % 60, ms % 1000;
    p := PartsOf(d, h, m, s, f);
    PartsRead(d, h, m, s, f);
    TimeParts(ms);
    forall q: IsoParts | WellFormed(q) && IsoText(q) == Iso(t)
      ensures q == p
    {
      IsoTextOnce(p, q);
    }
  }

  // ----- The text of the first instant -----

  lemma PaddedDigit(n: nat, width: nat)
    requires n < 10 && width > 0
    ensures Padded(n, width) == Zeros(width - 1) + [DigitChar(n)]
  {
  }

  lemma YearPrints()
    ensures Padded(1970, 4) == "1970"
  {
    assert Decimal(1) == "1" && Decimal(19) == Decimal(1) + ['9'];
    assert Decimal(197) == Decimal(19) + ['7'] && Decimal(1970) == Decimal(197) + ['0'];
  }

  lemma MidnightPrints()
    ensures Clock(0, 0, 0, 0) == "00:00:00.000"
  {
    PaddedDigit(0, 2);
    PaddedDigit(0, 3);
    var two, three := Padded(0, 2), Padded(0, 3);
    assert two == "00" && three == "000";
    assert two + [':'] + two + [':'] + two + ['.'] + three == "00:00:00.000";
  }

  /** The first day, as every export prints it. */
  lemma EpochPrints()
    ensures IsoDay(Date(1970, 0, 1)) == "1970-01-01"
  {
    YearPrints();
    PaddedDigit(1, 2);
    assert Padded(1, 2) == "01";
  }

  // ----- Columns -----

  /** A cell for an instant that may be absent; IsoReadsBack says what instant it is. */
  predicate ShowsInstant(cell: string, t: Option<nat>) {
    cell == if t.Some? then Iso(t.value) else []
  }

  /** A cell for a text that may be absent. */
  predicate ShowsText(cell: string, text: Option<string>) {
    cell == if text.Some? then text.value else []
  }

  const CERTIFICATE_COLUMNS := ["certificationNumber", "cooperativeName", "productTypeCode", "regionCode",
                                "certificationType", "currentStatus", "validFrom", "validUntil", "grantedAt"]

  /** Under each header stands the certification's own value; TypeReadsBack and StatusReadsBack are about the names. */
  predicate ShowsCertification(row: seq<string>, c: Registry.Certification) {
    && |row| == 9
    && ShowsText(row[0], c.certificationNumber)
    && row[1] == c.terms.cooperativeName && row[2] == c.terms.productTypeCode && row[3] == c.terms.regionCode
    && row[4] == TypeName(c.terms.certificationType) && row[5] == StatusName(c.currentStatus)
    && ShowsInstant(row[6], if c.grant.Some? then Some(c.grant.value.validFrom) else None)
    && ShowsInstant(row[7], if c.grant.Some? then Some(c.grant.value.validUntil) else None)
    && ShowsInstant(row[8], if c.grant.Some? then Some(c.grant.value.at) else None)
  }

  lemma CertificationShown(c: Registry.Certification)
    ensures ShowsCertification(Values(ComplianceCells(c)), c)
  {
  }

  lemma HeaderValues(names: seq<string>)
    ensures Values(Header(names)) == names
  {
  }

  lemma ComplianceHeader()
    ensures Values(Header(COMPLIANCE)) == CERTIFICATE_COLUMNS
  {
    HeaderValues(COMPLIANCE);
  }

  lemma CertificationRowShown(certs: seq<Registry.Certification>, i: nat)
    requires i < |certs|
    ensures ShowsCertification(TableOf(ComplianceRows(certs))[i + 1], certs[i])
  {
    CertificationShown(certs[i]);
  }

  /**
   * The compliance report, read by section 2 of RFC 4180: one row per certification after the header, and under each
   * header that certification's own value, instants and names included - for plain rows, which is exactly when it
   * reads back at all.
   */
  lemma ComplianceColumns(certs: seq<Registry.Certification>)
    requires forall i | 0 <= i < |certs| :: PlainCertification(certs[i])
    ensures var t := ReadTable(ExportComplianceReport(certs));
            && t.Some? && |t.value| == |certs| + 1 && t.value[0] == CERTIFICATE_COLUMNS
            && forall i | 0 <= i < |certs| :: ShowsCertification(t.value[i + 1], certs[i])
  {
    ComplianceRoundTripIff(certs);
    ComplianceHeader();
    forall i | 0 <= i < |certs|
      ensures ShowsCertification(TableOf(ComplianceRows(certs))[i + 1], certs[i])
    {
      CertificationRowShown(certs, i);
    }
  }

  const CLEARANCE_COLUMNS := ["exportDocId", "cooperativeName", "productTypeCode", "destinationCountry", "hsCode",
                              "clearedAt", "status"]

  predicate ShowsClearance(row: seq<string>, r: Clearance) {
    && |row| == 7
    && row[0] == r.exportDocId && ShowsText(row[1], r.cooperativeName) && ShowsText(row[2], r.productTypeCode)
    && row[3] == r.destinationCountry && ShowsText(row[4], r.hsCode) && ShowsInstant(row[5], Some(r.clearedAt))
    && row[6] == r.status
  }

  lemma ClearanceShown(r: Clearance)
    ensures ShowsClearance(Values(ClearanceCells(r)), r)
  {
  }

  lemma ClearanceHeader()
    ensures Values(Header(CLEARANCES)) == CLEARANCE_COLUMNS
  {
    HeaderValues(CLEARANCES);
  }

  lemma ClearanceRowShown(rs: seq<Clearance>, i: nat)
    requires i < |rs|
    ensures ShowsClearance(TableOf(ClearanceRows(rs))[i + 1], rs[i])
  {
    ClearanceShown(rs[i]);
  }

  /** The same for the clearances report. */
  lemma ClearanceColumns(rs: seq<Clearance>)
    requires forall i | 0 <= i < |rs| :: PlainClearance(rs[i])
    ensures var t := ReadTable(ExportClearancesReport(rs));
            && t.Some? && |t.value| == |rs| + 1 && t.value[0] == CLEARANCE_COLUMNS
            && forall i | 0 <= i < |rs| :: ShowsClearance(t.value[i + 1], rs[i])
  {
    ClearancesRoundTripIff(rs);
    ClearanceHeader();
    forall i | 0 <= i < |rs|
      ensures ShowsClearance(TableOf(ClearanceRows(rs))[i + 1], rs[i])
    {
      ClearanceRowShown(rs, i);
    }
  }

  const PRODUCT_COLUMNS := ["productId", "name", "productTypeCode", "cooperativeId", "regionCode", "registeredAt"]

  predicate ShowsProduct(row: seq<string>, r: ProductRow) {
    && |row| == 6
    && row[0] == r.productId && row[1] == r.name && row[2] == r.productTypeCode && row[3] == r.cooperativeId
    && ShowsText(row[4], r.regionCode) && ShowsInstant(row[5], Some(r.registeredAt))
  }

  lemma ProductShown(r: ProductRow)
    ensures ShowsProduct(Values(ProductCells(r)), r)
  {
  }

  lemma ProductHeader()
    ensures Values(Header(PRODUCTS)) == PRODUCT_COLUMNS
  {
    HeaderValues(PRODUCTS);
  }

  lemma ProductRowShown(rs: seq<ProductRow>, i: nat)
    requires i < |rs|
    ensures ShowsProduct(TableOf(ProductRows(rs))[i + 1], rs[i])
  {
    ProductShown(rs[i]);
  }

  /** The same for the product registry. */
  lemma ProductColumns(rs: seq<ProductRow>)
    requires forall i | 0 <= i < |rs| :: PlainProduct(rs[i])
    ensures var t := ReadTable(ExportProductRegistry(rs));
            && t.Some? && |t.value| == |rs| + 1 && t.value[0] == PRODUCT_COLUMNS
            && forall i | 0 <= i < |rs| :: ShowsProduct(t.value[i + 1], rs[i])
  {
    ProductsRoundTripIff(rs);
    ProductHeader();
    forall i | 0 <= i < |rs|
      ensures ShowsProduct(TableOf(ProductRows(rs))[i + 1], rs[i])
    {
      ProductRowShown(rs, i);
    }
  }
}

/** The printed certificate number, TERROIR-{AOP|IGP|LA}-{REGION}-{YEAR}-{SEQ}, and a reader for it. */
module CertificateNumber {
  import opened Text

  datatype CertificationType = IGP | AOP | LabelAgricole

  datatype Number = Number(kind: CertificationType, region: string, year: nat, sequence: nat)

  const PREFIX := "TERROIR-"

  function Abbreviation(t: CertificationType): string {
    match t
    case LabelAgricole => "LA"
    case IGP => "IGP"
    case AOP => "AOP"
  }

  function TypeOf(abbreviation: string): Option<CertificationType> {
    if abbreviation == "LA" then Some(LabelAgricole)
    else if abbreviation == "IGP" then Some(IGP)
    else if abbreviation == "AOP" then Some(AOP)
    else None
  }

  function Print(n: Number): string {
    PREFIX + (Front(n) + ['-'] + PadStart(Decimal(n.sequence), 3))
  }

  /** The text between the prefix and the sequence. */
  function Front(n: Number): string {
    Abbreviation(n.kind) + ['-'] + n.region + ['-'] + Decimal(n.year)
  }

  /** Reads a number from both ends: the region may itself contain dashes. */
  function Parse(s: string): Option<Number> {
    if !(PREFIX <= s) then None else ParseBody(s[|PREFIX|..])
  }

  function ParseBody(s: string): Option<Number> {
    match SplitLast(s, '-')
    case None => None
    case Some((front, sequence)) =>
      match ParseFront(front)
      case None => None
      case Some((kind, region, year)) =>
        if AllDigits(sequence) then Some(Number(kind, region, year, Value(sequence))) else None
  }

  function ParseFront(s: string): Option<(CertificationType, string, nat)> {
    match SplitLast(s, '-')
    case None => None
    case Some((head, year)) =>
      match SplitFirst(head, '-')
      case None => None
      case Some((abbreviation, region)) =>
        var kind := TypeOf(abbreviation);
        if kind.Some? && AllDigits(year) then Some((kind.value, region, Value(year))) else None
  }

  lemma ParseFrontOfPrinted(n: Number)
    ensures ParseFront(Front(n)) == Some((n.kind, n.region, n.year))
  {
    var abbreviation := Abbreviation(n.kind);
    assert TypeOf(abbreviation) == Some(n.kind) && '-' !in abbreviation;
    ValueOfDecimal(n.year);
    SplitLastAt(abbreviation + ['-'] + n.region, '-', Decimal(n.year));
    SplitFirstAt(abbreviation, '-', n.region);
  }

  /** Every printed number reads back, whatever the region's text and however long the sequence. */
  lemma RoundTrip(n: Number)
    ensures Parse(Print(n)) == Some(n)
  {
    var body := Front(n) + ['-'] + PadStart(Decimal(n.sequence), 3);
    ParseFrontOfPrinted(n);
    ValueOfPadded(n.sequence, 3);
    SplitLastAt(Front(n), '-', PadStart(Decimal(n.sequence), 3));
    assert ParseBody(body) == Some(n);
    StripPrefix(body);
  }

  lemma StripPrefix(body: string)
    ensures PREFIX <= PREFIX + body && (PREFIX + body)[|PREFIX|..] == body
  {
  }

  /** No two different (type, region, year, sequence) print alike. */
  lemma Injective(m: Number, n: Number)
    requires Print(m) == Print(n)
    ensures m == n
  {
    RoundTrip(m);
    RoundTrip(n);
  }

  /** With the column widths of the schema the text always fits VARCHAR(80). */
  lemma FitsColumn(n: Number)
    requires |n.region| <= 50 && n.year <= 9999 && n.sequence < 0x8000_0000
    ensures |Print(n)| <= 80
  {
    assert Pow10(4) == 10_000;
    DecimalLength(n.year, 4);
    assert Pow10(5) == 100_000 && Pow10(10) == 100_000 * Pow10(5);
    DecimalLength(n.sequence, 10);
  }

  lemma SequenceText(q: nat)
    ensures var s := PadStart(Decimal(q), 3);
            && AllDigits(s) && Value(s) == q && (|s| == 3 || (|s| > 3 && s[0] != '0'))
  {
    ValueOfPadded(q, 3);
    DecimalCanonical(q);
  }

  lemma YearText(y: nat)
    ensures var s := Decimal(y);
            && AllDigits(s) && Value(s) == y && (|s| == 1 || (|s| > 1 && s[0] != '0'))
  {
    ValueOfDecimal(y);
    DecimalCanonical(y);
  }

  lemma Reassociate(prefix: string, kind: string, region: string, year: string, sequence: string)
    ensures prefix + (kind + ['-'] + region + ['-'] + year + ['-'] + sequence) ==
            prefix + kind + "-" + region + "-" + year + "-" + sequence
  {
  }

  /**
   * The text of a number: prefix, abbreviation, region and year as they are, and the sequence padded with zeros to
   * three digits and no further.
   */
  lemma PrintedText(n: Number) returns (year: string, sequence: string)
    ensures Print(n) ==
            "TERROIR-" + (match n.kind case IGP => "IGP" case AOP => "AOP" case LabelAgricole => "LA") + "-" +
            n.region + "-" + year + "-" + sequence
    ensures AllDigits(year) && Value(year) == n.year && (|year| == 1 || (|year| > 1 && year[0] != '0'))
    ensures AllDigits(sequence) && Value(sequence) == n.sequence
    ensures |sequence| == 3 || (|sequence| > 3 && sequence[0] != '0')
  {
    year, sequence := Decimal(n.year), PadStart(Decimal(n.sequence), 3);
    YearText(n.year);
    SequenceText(n.sequence);
    Reassociate("TERROIR-", Abbreviation(n.kind), n.region, year, sequence);
  }
}

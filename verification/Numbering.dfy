/** What a certificate number says about its certification, over whole runs, and what that does for the CSV report. */
module Numbering {
  import opened Text
  import opened Lifecycle
  import opened CertificateNumber
  import opened Registry
  import opened Changes
  import opened Csv
  import Exports

  /** The number is one of its own certification's type and region. */
  ghost predicate NamesItsTerms(cert: Certification) {
    cert.certificationNumber.Some? ==>
      exists year: nat, q: nat :: cert.certificationNumber.value == NumberText(cert.terms, year, q)
  }

  ghost predicate NumbersNameTerms(w: World) {
    forall id | 0 <= id < |w.certifications| :: NamesItsTerms(w.certifications[id])
  }

  lemma ChangeKeepsNumberNames(d: Change, w: World, c: Call, w': World)
    requires NumbersNameTerms(w) && Applies(d, w, w') && FitsCall(w, c, d)
    ensures NumbersNameTerms(w')
  {
    if d.Moved? && d.row.edge.event == DecisionGranted {
      assert c.Granting?;
      var terms := w.certifications[d.id].terms;
      assert d.cert.certificationNumber ==
             Some(NumberText(terms, c.year, LastSeq(w, SeriesOf(terms, c.year)) + 1));
    }
    forall id | 0 <= id < |w'.certifications|
      ensures NamesItsTerms(w'.certifications[id])
    {
      if id < |w.certifications| {
        assert NamesItsTerms(w.certifications[id]);
        assert w'.certifications[id].terms == w.certifications[id].terms;
      }
    }
  }

  lemma {:induction false} NumbersAlwaysNameTerms(worlds: seq<World>, calls: seq<Call>, i: nat)
    requires Trace(worlds, calls) && i <= |calls|
    ensures NumbersNameTerms(worlds[i])
  {
    if i > 0 {
      assert Linked(worlds, calls, i - 1);
      NumbersAlwaysNameTerms(worlds, calls, i - 1);
      var d := ChangeOf(worlds[i - 1], calls[i - 1]);
      ChangeKeepsNumberNames(d, worlds[i - 1], calls[i - 1], worlds[i]);
    }
  }

  /** In every run reading a certification's number back gives its own type and region. */
  lemma NumberNamesTypeAndRegion(worlds: seq<World>, calls: seq<Call>, i: nat, id: Id)
    requires Trace(worlds, calls) && i <= |calls| && id < |worlds[i].certifications|
    requires worlds[i].certifications[id].certificationNumber.Some?
    ensures var cert := worlds[i].certifications[id];
            var n := Parse(cert.certificationNumber.value);
            && n.Some? && n.value.kind == cert.terms.certificationType && n.value.region == cert.terms.regionCode
  {
    NumbersAlwaysNameTerms(worlds, calls, i);
    var cert := worlds[i].certifications[id];
    assert NamesItsTerms(cert);
    var year: nat, q: nat :| cert.certificationNumber.value == NumberText(cert.terms, year, q);
    RoundTrip(Number(cert.terms.certificationType, cert.terms.regionCode, year, q));
  }

  /** The counter of a type, a region and a year, under the type's short name. */
  lemma SeriesIs(terms: Terms, year: nat)
    ensures SeriesOf(terms, year) ==
            Series(match terms.certificationType case IGP => "IGP" case AOP => "AOP" case LabelAgricole => "LA",
                   terms.regionCode, year)
  {
  }

  /** The value after a counter's last; the first is 1. */
  function NextValue(counters: map<Series, nat>, key: Series): nat {
    if key in counters then counters[key] + 1 else 1
  }

  /** A grant takes the next value of its type's, region's and year's counter and prints exactly these four. */
  lemma GrantedNumber(w: World, c: Call)
    requires c.Granting? && StandsAt(w, c.id, UnderReview)
    ensures var terms, w' := w.certifications[c.id].terms, Step(w, c);
            var next := NextValue(w.counters, SeriesOf(terms, c.year));
            && w'.counters == w.counters[SeriesOf(terms, c.year) := next]
            && c.id < |w'.certifications| && w'.certifications[c.id].certificationNumber.Some?
            && Parse(w'.certifications[c.id].certificationNumber.value) ==
               Some(Number(terms.certificationType, terms.regionCode, c.year, next))
  {
    var terms := w.certifications[c.id].terms;
    GrantStores(w, c);
    TextParses(terms, c.year, LastSeq(w, SeriesOf(terms, c.year)) + 1);
  }

  lemma TextParses(terms: Terms, year: nat, q: nat)
    ensures Parse(NumberText(terms, year, q)) == Some(Number(terms.certificationType, terms.regionCode, year, q))
  {
    RoundTrip(Number(terms.certificationType, terms.regionCode, year, q));
  }

  lemma GrantStores(w: World, c: Call)
    requires c.Granting? && StandsAt(w, c.id, UnderReview)
    ensures var terms := w.certifications[c.id].terms;
            var next := LastSeq(w, SeriesOf(terms, c.year)) + 1;
            && |Step(w, c).certifications| == |w.certifications|
            && Step(w, c).certifications[c.id].certificationNumber == Some(NumberText(terms, c.year, next))
            && Step(w, c).counters == w.counters[SeriesOf(terms, c.year) := next]
  {
  }

  /** A printed number is plain CSV text exactly when its region is. */
  lemma NumberCleanIff(n: Number)
    ensures CleanText(Print(n)) <==> CleanText(n.region)
  {
    var front, back := Abbreviation(n.kind) + ['-'], PadStart(Decimal(n.sequence), 3);
    AbbreviationClean(n.kind);
    ValueOfPadded(n.sequence, 3);
    Exports.DigitsAreClean(back);
    Exports.DigitsAreClean(Decimal(n.year));
    Exports.CleanConcat(front, n.region);
    Exports.CleanConcat(front + n.region, ['-']);
    Exports.CleanConcat(front + n.region + ['-'], Decimal(n.year));
    Exports.CleanConcat(Front(n), ['-']);
    Exports.CleanConcat(Front(n) + ['-'], back);
    Exports.CleanConcat(PREFIX, Front(n) + ['-'] + back);
  }

  lemma AbbreviationClean(t: CertificationType)
    ensures CleanText(Abbreviation(t) + ['-']) && CleanText(PREFIX)
  {
  }

  /**
   * In every run the compliance report over all certifications reads back exactly when their product codes and regions
   * are plain: the numbers the services print never spoil it by themselves.
   */
  lemma ReportReadsBackIff(worlds: seq<World>, calls: seq<Call>, i: nat)
    requires Trace(worlds, calls) && i <= |calls|
    ensures var certs := worlds[i].certifications;
            ReadTable(Exports.ExportComplianceReport(certs)) == Some(TableOf(Exports.ComplianceRows(certs))) <==>
            forall id | 0 <= id < |certs| ::
              CleanText(certs[id].terms.productTypeCode) && CleanText(certs[id].terms.regionCode)
  {
    var certs := worlds[i].certifications;
    NumbersAlwaysNameTerms(worlds, calls, i);
    Exports.ComplianceRoundTripIff(certs);
    forall id | 0 <= id < |certs|
      ensures Exports.PlainCertification(certs[id]) <==>
              CleanText(certs[id].terms.productTypeCode) && CleanText(certs[id].terms.regionCode)
    {
      var cert := certs[id];
      assert NamesItsTerms(cert);
      if cert.certificationNumber.Some? {
        var year: nat, q: nat :| cert.certificationNumber.value == NumberText(cert.terms, year, q);
        NumberCleanIff(Number(cert.terms.certificationType, cert.terms.regionCode, year, q));
      }
    }
  }
}

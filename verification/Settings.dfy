/** Grouped platform settings: camelCase DTOs stored as snake_case text rows behind a cache. */
module Settings {
  import opened Text

  // ----- Key names -----

  predicate Upper(c: char) {
    'A' <= c <= 'Z'
  }

  function Lower(c: char): char {
    if Upper(c) then ((c as int) + 32) as char else c
  }

  /** key.replace(/([A-Z])/g, '_$1').toLowerCase() */
  function Snake(key: string): string {
    if key == [] then []
    else (if Upper(key[0]) then ['_', Lower(key[0])] else [key[0]]) + Snake(key[1..])
  }

  function Capital(c: char): char {
    if 'a' <= c <= 'z' then ((c as int) - 32) as char else c
  }

  /** Undoes Snake: an underscore capitalises what follows. */
  function Camel(key: string): string {
    if key == [] then []
    else if key[0] == '_' && |key| > 1 then [Capital(key[1])] + Camel(key[2..])
    else [key[0]] + Camel(key[1..])
  }

  /** No underscore except perhaps at the very end. */
  predicate PlainKey(key: string) {
    forall i | 0 <= i < |key| - 1 :: key[i] != '_'
  }

  lemma CamelCapital(c: char, rest: string)
    ensures Camel(['_', c] + rest) == [Capital(c)] + Camel(rest)
  {
    assert (['_', c] + rest)[2..] == rest;
  }

  lemma CamelStep(c: char, rest: string)
    requires c != '_'
    ensures Camel([c] + rest) == [c] + Camel(rest)
  {
    assert ([c] + rest)[1..] == rest;
  }

  lemma UpperBack(c: char)
    requires Upper(c)
    ensures Capital(Lower(c)) == c && Lower(c) != '_' && Lower(c) != c
  {
  }

  /** What reading a snake-case key back does with its first character. */
  lemma SnakeHead(key: string)
    requires key != [] && key[0] != '_'
    ensures Camel(Snake(key)) == [key[0]] + Camel(Snake(key[1..]))
  {
    var rest := Snake(key[1..]);
    SnakeCons(key);
    if Upper(key[0]) {
      CamelCapital(Lower(key[0]), rest);
      UpperBack(key[0]);
    } else {
      CamelStep(key[0], rest);
    }
  }

  lemma SnakeCons(key: string)
    requires key != []
    ensures Snake(key) == (if Upper(key[0]) then ['_', Lower(key[0])] else [key[0]]) + Snake(key[1..])
  {
  }

  /** An underscore swallows what follows: a capital loses its case, anything else is capitalised. */
  lemma SnakeUnderscore(key: string)
    requires |key| > 1 && key[0] == '_'
    ensures Camel(Snake(key)) ==
            if Upper(key[1]) then ['_', Lower(key[1])] + Camel(Snake(key[2..]))
            else [Capital(key[1])] + Camel(Snake(key[2..]))
  {
    var tail, rest := key[1..], Snake(key[2..]);
    assert tail[0] == key[1] && tail[1..] == key[2..];
    SnakeCons(key);
    SnakeCons(tail);
    if Upper(key[1]) {
      CapitalSwallowed(key[1], rest);
    } else {
      assert ['_'] + ([key[1]] + rest) == ['_', key[1]] + rest;
      CamelCapital(key[1], rest);
    }
  }

  lemma CapitalSwallowed(c: char, rest: string)
    requires Upper(c)
    ensures Camel(['_'] + (['_', Lower(c)] + rest)) == ['_', Lower(c)] + Camel(rest)
  {
    assert ['_'] + (['_', Lower(c)] + rest) == ['_', '_'] + ([Lower(c)] + rest);
    CamelCapital('_', [Lower(c)] + rest);
    UpperBack(c);
    CamelStep(Lower(c), rest);
    assert ['_'] + ([Lower(c)] + Camel(rest)) == ['_', Lower(c)] + Camel(rest);
  }

  lemma {:induction false} NeverLonger(key: string)
    ensures |Camel(Snake(key))| <= |key|
    decreases |key|
  {
    if key == [] || key == "_" {
      assert key == "_" ==> Snake(key) == "_" && Camel("_") == ['_'] + Camel([]);
    } else if key[0] == '_' {
      SnakeUnderscore(key);
      NeverLonger(key[2..]);
    } else {
      SnakeHead(key);
      NeverLonger(key[1..]);
    }
  }

  /** A leading underscore with something behind it does not read back. */
  lemma UnderscoreLost(key: string)
    requires |key| > 1 && key[0] == '_'
    ensures Camel(Snake(key)) != key
  {
    SnakeUnderscore(key);
    if Upper(key[1]) {
      UpperBack(key[1]);
    } else if key[1] == '_' {
      NeverLonger(key[2..]);
    } else {
      assert Capital(key[1]) != '_';
    }
  }

  /** The key map can be undone exactly on keys without an underscore before their last character. */
  lemma {:induction false} SnakeIsInvertibleIff(key: string)
    ensures Camel(Snake(key)) == key <==> PlainKey(key)
  {
    if key == [] {
    } else if key == "_" {
      assert Snake(key) == "_" && Camel("_") == ['_'] + Camel([]);
    } else if key[0] == '_' {
      UnderscoreLost(key);
    } else {
      SnakeHead(key);
      SnakeIsInvertibleIff(key[1..]);
      PlainTail(key);
      assert key == [key[0]] + key[1..];
    }
  }

  lemma PlainTail(key: string)
    requires key != [] && key[0] != '_'
    ensures PlainKey(key) <==> PlainKey(key[1..])
  {
    if PlainKey(key) {
      assert forall i | 0 <= i < |key[1..]| - 1 :: key[1..][i] == key[i + 1];
    } else {
      var i :| 0 <= i < |key| - 1 && key[i] == '_';
      assert key[1..][i - 1] == '_';
    }
  }

  /** Two such keys never share a row. */
  lemma PlainKeysDiffer(a: string, b: string)
    requires PlainKey(a) && PlainKey(b) && Snake(a) == Snake(b)
    ensures a == b
  {
    SnakeIsInvertibleIff(a);
    SnakeIsInvertibleIff(b);
  }

  predicate NoUpper(w: string) {
    forall i | 0 <= i < |w| :: !Upper(w[i])
  }

  lemma {:induction false} SnakeWord(w: string, rest: string)
    requires NoUpper(w)
    ensures Snake(w + rest) == w + Snake(rest)
  {
    if w == [] {
      assert w + rest == rest;
    } else {
      assert (w + rest)[1..] == w[1..] + rest;
      SnakeWord(w[1..], rest);
    }
  }

  lemma SnakeCapital(c: char, w: string, rest: string)
    requires Upper(c) && NoUpper(w)
    ensures Snake([c] + w + rest) == ['_', Lower(c)] + w + Snake(rest)
  {
    assert ([c] + w + rest)[1..] == w + rest;
    SnakeWord(w, rest);
  }

  lemma TwoWords(a: string, c: char, b: string)
    requires NoUpper(a) && Upper(c) && NoUpper(b)
    ensures Snake(a + ([c] + b)) == a + (['_', Lower(c)] + b)
  {
    SnakeWord(a, [c] + b);
    SnakeCapital(c, b, []);
    assert [c] + b + [] == [c] + b && ['_', Lower(c)] + b + Snake([]) == ['_', Lower(c)] + b;
  }

  lemma ThreeWords(a: string, c: char, b: string, d: char, e: string)
    requires NoUpper(a) && Upper(c) && NoUpper(b) && Upper(d) && NoUpper(e)
    ensures Snake(a + ([c] + b + ([d] + e))) == a + (['_', Lower(c)] + b + (['_', Lower(d)] + e))
  {
    SnakeWord(a, [c] + b + ([d] + e));
    SnakeCapital(c, b, [d] + e);
    SnakeCapital(d, e, []);
    assert [d] + e + [] == [d] + e && ['_', Lower(d)] + e + Snake([]) == ['_', Lower(d)] + e;
  }

  lemma FourWords(a: string, c: char, b: string, d: char, e: string, f: char, g: string)
    requires NoUpper(a) && Upper(c) && NoUpper(b) && Upper(d) && NoUpper(e) && Upper(f) && NoUpper(g)
    ensures Snake(a + ([c] + b + ([d] + e + ([f] + g)))) ==
            a + (['_', Lower(c)] + b + (['_', Lower(d)] + e + (['_', Lower(f)] + g)))
  {
    var tail := [d] + e + ([f] + g);
    SnakeWord(a, [c] + b + tail);
    SnakeCapital(c, b, tail);
    ThreeWords([], d, e, f, g);
    assert [] + tail == tail;
    var snaked := ['_', Lower(d)] + e + (['_', Lower(f)] + g);
    assert [] + snaked == snaked;
  }

  // ----- DTOs, rows and their text forms -----

  datatype Group = Campaign | Certification | Platform

  datatype Dto =
    | CampaignSettings(currentCampaignYear: string, campaignStartMonth: nat, campaignEndMonth: nat)
    | CertificationSettings(defaultValidityDays: nat, maxRenewalGraceDays: nat)
    | PlatformSettings(maintenanceMode: bool, supportEmail: string)

  function GroupOf(dto: Dto): Group {
    match dto
    case CampaignSettings(_, _, _) => Campaign
    case CertificationSettings(_, _) => Certification
    case PlatformSettings(_, _) => Platform
  }

  datatype JsValue = JsString(s: string) | JsNumber(n: nat) | JsBool(b: bool)

  /** String(value) */
  function TextOf(v: JsValue): string {
    match v
    case JsString(s) => s
    case JsNumber(n) => Decimal(n)
    case JsBool(b) => if b then "true" else "false"
  }

  /** Object.entries(dto) */
  function Entries(dto: Dto): seq<(string, JsValue)> {
    match dto
    case CampaignSettings(year, start, end) =>
      [("currentCampaignYear", JsString(year)), ("campaignStartMonth", JsNumber(start)),
       ("campaignEndMonth", JsNumber(end))]
    case CertificationSettings(days, grace) =>
      [("defaultValidityDays", JsNumber(days)), ("maxRenewalGraceDays", JsNumber(grace))]
    case PlatformSettings(mode, email) =>
      [("maintenanceMode", JsBool(mode)), ("supportEmail", JsString(email))]
  }

  /** The primary key of system_setting. */
  datatype Key = Key(settingGroup: Group, settingKey: string)

  datatype Row = Row(settingValue: string, updatedBy: Option<string>)

  type Table = map<Key, Row>

  /** The rows of a group as a key-value record. */
  function ReadGroup(table: Table, g: Group): map<string, string> {
    map k | k in table && k.settingGroup == g :: k.settingKey := table[k].settingValue
  }

  /** Row texts that Number() is applied to are numerals. */
  predicate Numerals(kv: map<string, string>) {
    && ("campaign_start_month" in kv ==> AllDigits(kv["campaign_start_month"]))
    && ("campaign_end_month" in kv ==> AllDigits(kv["campaign_end_month"]))
    && ("default_validity_days" in kv ==> AllDigits(kv["default_validity_days"]))
    && ("max_renewal_grace_days" in kv ==> AllDigits(kv["max_renewal_grace_days"]))
  }

  function NumberOr(kv: map<string, string>, key: string, default: nat): nat
    requires key in kv ==> AllDigits(kv[key])
  {
    if key in kv then Value(kv[key]) else default
  }

  function TextOr(kv: map<string, string>, key: string, default: string): string {
    if key in kv then kv[key] else default
  }

  function Decode(g: Group, kv: map<string, string>): Dto
    requires Numerals(kv)
  {
    match g
    case Campaign =>
      CampaignSettings(TextOr(kv, "current_campaign_year", "2025-2026"), NumberOr(kv, "campaign_start_month", 10),
                       NumberOr(kv, "campaign_end_month", 9))
    case Certification =>
      CertificationSettings(NumberOr(kv, "default_validity_days", 365), NumberOr(kv, "max_renewal_grace_days", 90))
    case Platform =>
      PlatformSettings(TextOr(kv, "maintenance_mode", "") == "true", TextOr(kv, "support_email", "support@terroir.ma"))
  }

  predicate Typed(table: Table) {
    forall g: Group :: Numerals(ReadGroup(table, g))
  }

  /** What the table says about a group. */
  function Current(table: Table, g: Group): Dto
    requires Typed(table)
  {
    Decode(g, ReadGroup(table, g))
  }

  /** One upsert per entry, in order. */
  function Upsert(table: Table, g: Group, entries: seq<(string, JsValue)>, user: string): Table {
    if entries == [] then table
    else
      var (key, value) := entries[|entries| - 1];
      Upsert(table, g, entries[..|entries| - 1], user)[Key(g, Snake(key)) := Row(TextOf(value), Some(user))]
  }

  // ----- The table after an update -----

  lemma CampaignYearCamel()
    ensures "current" + (['C'] + "ampaign" + (['Y'] + "ear")) == "currentCampaignYear"
  {
  }

  lemma CampaignYearSnake()
    ensures "current" + (['_', 'c'] + "ampaign" + (['_', 'y'] + "ear")) == "current_campaign_year"
  {
  }

  lemma CampaignYearKey()
    ensures Snake("currentCampaignYear") == "current_campaign_year"
  {
    ThreeWords("current", 'C', "ampaign", 'Y', "ear");
    CampaignYearCamel();
    CampaignYearSnake();
  }

  lemma CampaignStartKey()
    ensures Snake("campaignStartMonth") == "campaign_start_month"
  {
    ThreeWords("campaign", 'S', "tart", 'M', "onth");
    assert "campaign" + (['S'] + "tart" + (['M'] + "onth")) == "campaignStartMonth";
    assert "campaign" + (['_', 's'] + "tart" + (['_', 'm'] + "onth")) == "campaign_start_month";
  }

  lemma CampaignEndKey()
    ensures Snake("campaignEndMonth") == "campaign_end_month"
  {
    ThreeWords("campaign", 'E', "nd", 'M', "onth");
    assert "campaign" + (['E'] + "nd" + (['M'] + "onth")) == "campaignEndMonth";
    assert "campaign" + (['_', 'e'] + "nd" + (['_', 'm'] + "onth")) == "campaign_end_month";
  }

  lemma ValidityDaysCamel()
    ensures "default" + (['V'] + "alidity" + (['D'] + "ays")) == "defaultValidityDays"
  {
  }

  lemma ValidityDaysSnake()
    ensures "default" + (['_', 'v'] + "alidity" + (['_', 'd'] + "ays")) == "default_validity_days"
  {
  }

  lemma ValidityDaysKey()
    ensures Snake("defaultValidityDays") == "default_validity_days"
  {
    ThreeWords("default", 'V', "alidity", 'D', "ays");
    ValidityDaysCamel();
    ValidityDaysSnake();
  }

  lemma GraceDaysCamel()
    ensures "max" + (['R'] + "enewal" + (['G'] + "race" + (['D'] + "ays"))) == "maxRenewalGraceDays"
  {
  }

  lemma GraceDaysSnake()
    ensures "max" + (['_', 'r'] + "enewal" + (['_', 'g'] + "race" + (['_', 'd'] + "ays"))) == "max_renewal_grace_days"
  {
  }

  lemma GraceDaysKey()
    ensures Snake("maxRenewalGraceDays") == "max_renewal_grace_days"
  {
    FourWords("max", 'R', "enewal", 'G', "race", 'D', "ays");
    GraceDaysCamel();
    GraceDaysSnake();
  }

  lemma MaintenanceKey()
    ensures Snake("maintenanceMode") == "maintenance_mode"
  {
    TwoWords("maintenance", 'M', "ode");
    assert "maintenance" + (['M'] + "ode") == "maintenanceMode";
    assert "maintenance" + (['_', 'm'] + "ode") == "maintenance_mode";
  }

  lemma SupportKey()
    ensures Snake("supportEmail") == "support_email"
  {
    TwoWords("support", 'E', "mail");
    assert "support" + (['E'] + "mail") == "supportEmail";
    assert "support" + (['_', 'e'] + "mail") == "support_email";
  }

  lemma UpsertTwo(table: Table, g: Group, a: (string, JsValue), b: (string, JsValue), user: string)
    ensures Upsert(table, g, [a, b], user) ==
            table[Key(g, Snake(a.0)) := Row(TextOf(a.1), Some(user))]
                 [Key(g, Snake(b.0)) := Row(TextOf(b.1), Some(user))]
  {
    assert [a, b][..1] == [a] && [a][..0] == [];
    assert Upsert(table, g, [a], user) == table[Key(g, Snake(a.0)) := Row(TextOf(a.1), Some(user))];
  }

  lemma UpsertThree(table: Table, g: Group, a: (string, JsValue), b: (string, JsValue), c: (string, JsValue),
                    user: string)
    ensures Upsert(table, g, [a, b, c], user) ==
            table[Key(g, Snake(a.0)) := Row(TextOf(a.1), Some(user))]
                 [Key(g, Snake(b.0)) := Row(TextOf(b.1), Some(user))]
                 [Key(g, Snake(c.0)) := Row(TextOf(c.1), Some(user))]
  {
    assert [a, b, c][..2] == [a, b];
    UpsertTwo(table, g, a, b, user);
  }

  /** Upserting into a group leaves the rows of the others alone. */
  lemma {:induction false} UpsertKeepsOthers(table: Table, g: Group, entries: seq<(string, JsValue)>, user: string,
                                             h: Group)
    requires g != h
    ensures ReadGroup(Upsert(table, g, entries, user), h) == ReadGroup(table, h)
  {
    if entries != [] {
      var front := entries[..|entries| - 1];
      var (key, value) := entries[|entries| - 1];
      UpsertKeepsOthers(table, g, front, user, h);
      ReadElsewhere(Upsert(table, g, front, user), g, Snake(key), Row(TextOf(value), Some(user)), h);
    }
  }

  lemma ReadElsewhere(table: Table, g: Group, key: string, row: Row, h: Group)
    requires g != h
    ensures ReadGroup(table[Key(g, key) := row], h) == ReadGroup(table, h)
  {
  }

  lemma ReadAfterWrite(table: Table, g: Group, key: string, row: Row)
    ensures ReadGroup(table[Key(g, key) := row], g) == ReadGroup(table, g)[key := row.settingValue]
  {
  }

  /** The group's record after upserting two or three entries: the old one with exactly their keys replaced. */
  lemma UpdatedTwo(table: Table, g: Group, a: (string, JsValue), b: (string, JsValue), user: string)
    ensures ReadGroup(Upsert(table, g, [a, b], user), g) ==
            ReadGroup(table, g)[Snake(a.0) := TextOf(a.1)][Snake(b.0) := TextOf(b.1)]
  {
    UpsertTwo(table, g, a, b, user);
    var rowA, rowB := Row(TextOf(a.1), Some(user)), Row(TextOf(b.1), Some(user));
    ReadAfterWrite(table, g, Snake(a.0), rowA);
    ReadAfterWrite(table[Key(g, Snake(a.0)) := rowA], g, Snake(b.0), rowB);
  }

  lemma UpdatedThree(table: Table, g: Group, a: (string, JsValue), b: (string, JsValue), c: (string, JsValue),
                     user: string)
    ensures ReadGroup(Upsert(table, g, [a, b, c], user), g) ==
            ReadGroup(table, g)[Snake(a.0) := TextOf(a.1)][Snake(b.0) := TextOf(b.1)][Snake(c.0) := TextOf(c.1)]
  {
    UpsertTwo(table, g, a, b, user);
    UpsertThree(table, g, a, b, c, user);
    UpdatedTwo(table, g, a, b, user);
    ReadAfterWrite(Upsert(table, g, [a, b], user), g, Snake(c.0), Row(TextOf(c.1), Some(user)));
  }

  lemma UpdatedCampaign(table: Table, year: string, start: nat, end: nat, user: string)
    ensures ReadGroup(Upsert(table, Campaign, Entries(CampaignSettings(year, start, end)), user), Campaign) ==
            ReadGroup(table, Campaign)["current_campaign_year" := year]["campaign_start_month" := Decimal(start)]
                                      ["campaign_end_month" := Decimal(end)]
  {
    CampaignYearKey();
    CampaignStartKey();
    CampaignEndKey();
    UpdatedThree(table, Campaign, ("currentCampaignYear", JsString(year)), ("campaignStartMonth", JsNumber(start)),
                 ("campaignEndMonth", JsNumber(end)), user);
  }

  lemma UpdatedCertification(table: Table, days: nat, grace: nat, user: string)
    ensures ReadGroup(Upsert(table, Certification, Entries(CertificationSettings(days, grace)), user), Certification) ==
            ReadGroup(table, Certification)["default_validity_days" := Decimal(days)]
                                           ["max_renewal_grace_days" := Decimal(grace)]
  {
    ValidityDaysKey();
    GraceDaysKey();
    UpdatedTwo(table, Certification, ("defaultValidityDays", JsNumber(days)), ("maxRenewalGraceDays", JsNumber(grace)),
               user);
  }

  lemma UpdatedPlatform(table: Table, mode: JsValue, email: string, user: string)
    ensures var entries := [("maintenanceMode", mode), ("supportEmail", JsString(email))];
            ReadGroup(Upsert(table, Platform, entries, user), Platform) ==
            ReadGroup(table, Platform)["maintenance_mode" := TextOf(mode)]["support_email" := email]
  {
    MaintenanceKey();
    SupportKey();
    UpdatedTwo(table, Platform, ("maintenanceMode", mode), ("supportEmail", JsString(email)), user);
  }

  lemma CampaignReads(kv: map<string, string>, year: string, start: nat, end: nat)
    requires Numerals(kv)
    ensures var kv' := kv["current_campaign_year" := year]["campaign_start_month" := Decimal(start)]
                         ["campaign_end_month" := Decimal(end)];
            Numerals(kv') && Decode(Campaign, kv') == CampaignSettings(year, start, end)
  {
    var a, b, c := "current_campaign_year", "campaign_start_month", "campaign_end_month";
    assert |a| == 21 && |b| == 20 && |c| == 18 && |"max_renewal_grace_days"| == 22;
    assert a[0] != "default_validity_days"[0];
    ValueOfDecimal(start);
    ValueOfDecimal(end);
    Overwritten(kv, a, year, b, Decimal(start), c, Decimal(end));
  }

  /** Three updates of different keys: each key has its own text, other keys keep theirs. */
  lemma Overwritten(kv: map<string, string>, a: string, x: string, b: string, y: string, c: string, z: string)
    requires a != b && b != c && a != c
    ensures var kv' := kv[a := x][b := y][c := z];
            && kv'[a] == x && kv'[b] == y && kv'[c] == z
            && forall k | k != a && k != b && k != c :: (k in kv' <==> k in kv) && (k in kv ==> kv'[k] == kv[k])
  {
  }

  lemma CertificationReads(kv: map<string, string>, days: nat, grace: nat)
    requires Numerals(kv)
    ensures var kv' := kv["default_validity_days" := Decimal(days)]["max_renewal_grace_days" := Decimal(grace)];
            Numerals(kv') && Decode(Certification, kv') == CertificationSettings(days, grace)
  {
    var a, b := "default_validity_days", "max_renewal_grace_days";
    assert |a| == 21 && |b| == 22 && |"campaign_start_month"| == 20 && |"campaign_end_month"| == 18;
    ValueOfDecimal(days);
    ValueOfDecimal(grace);
  }

  lemma PlatformReads(kv: map<string, string>, mode: bool, email: string)
    requires Numerals(kv)
    ensures var kv' := kv["maintenance_mode" := TextOf(JsBool(mode))]["support_email" := email];
            Numerals(kv') && Decode(Platform, kv') == PlatformSettings(mode, email)
  {
    var a, b := "maintenance_mode", "support_email";
    assert |a| == 16 && |b| == 13 && |"campaign_start_month"| == 20 && |"campaign_end_month"| == 18;
    assert |"default_validity_days"| == 21 && |"max_renewal_grace_days"| == 22 && |"true"| != |"false"|;
  }

  /** An update writes exactly the rows of its group's keys, each with its value's text and the user's name. */
  lemma CampaignRows(table: Table, year: string, start: nat, end: nat, user: string)
    ensures Upsert(table, Campaign, Entries(CampaignSettings(year, start, end)), user) ==
            table[Key(Campaign, "current_campaign_year") := Row(year, Some(user))]
                 [Key(Campaign, "campaign_start_month") := Row(Decimal(start), Some(user))]
                 [Key(Campaign, "campaign_end_month") := Row(Decimal(end), Some(user))]
  {
    CampaignYearKey();
    CampaignStartKey();
    CampaignEndKey();
    UpsertThree(table, Campaign, ("currentCampaignYear", JsString(year)), ("campaignStartMonth", JsNumber(start)),
                ("campaignEndMonth", JsNumber(end)), user);
  }

  lemma CertificationRows(table: Table, days: nat, grace: nat, user: string)
    ensures Upsert(table, Certification, Entries(CertificationSettings(days, grace)), user) ==
            table[Key(Certification, "default_validity_days") := Row(Decimal(days), Some(user))]
                 [Key(Certification, "max_renewal_grace_days") := Row(Decimal(grace), Some(user))]
  {
    ValidityDaysKey();
    GraceDaysKey();
    UpsertTwo(table, Certification, ("defaultValidityDays", JsNumber(days)), ("maxRenewalGraceDays", JsNumber(grace)),
              user);
  }

  /** A flag is stored as true or false. */
  lemma PlatformTexts(mode: bool, email: string)
    ensures Entries(PlatformSettings(mode, email)) ==
            [("maintenanceMode", JsBool(mode)), ("supportEmail", JsString(email))]
    ensures TextOf(JsBool(true)) == "true" && TextOf(JsBool(false)) == "false"
  {
  }

  lemma PlatformRows(table: Table, mode: JsValue, email: string, user: string)
    ensures var entries := [("maintenanceMode", mode), ("supportEmail", JsString(email))];
            Upsert(table, Platform, entries, user) ==
            table[Key(Platform, "maintenance_mode") := Row(TextOf(mode), Some(user))]
                 [Key(Platform, "support_email") := Row(email, Some(user))]
  {
    MaintenanceKey();
    SupportKey();
    UpsertTwo(table, Platform, ("maintenanceMode", mode), ("supportEmail", JsString(email)), user);
  }

  /** The text encoding loses nothing: a group read after its update is the DTO that was written. */
  lemma UpdateThenRead(table: Table, dto: Dto, user: string)
    requires Typed(table)
    ensures var table' := Upsert(table, GroupOf(dto), Entries(dto), user);
            Numerals(ReadGroup(table', GroupOf(dto))) && Decode(GroupOf(dto), ReadGroup(table', GroupOf(dto))) == dto
  {
    assert Numerals(ReadGroup(table, GroupOf(dto)));
    match dto
    case CampaignSettings(year, start, end) =>
      UpdatedCampaign(table, year, start, end, user);
      CampaignReads(ReadGroup(table, Campaign), year, start, end);
    case CertificationSettings(days, grace) =>
      UpdatedCertification(table, days, grace, user);
      CertificationReads(ReadGroup(table, Certification), days, grace);
    case PlatformSettings(mode, email) =>
      UpdatedPlatform(table, JsBool(mode), email, user);
      PlatformReads(ReadGroup(table, Platform), mode, email);
  }

  lemma UpdateChangesOneGroup(table: Table, dto: Dto, user: string)
    requires Typed(table)
    ensures var table' := Upsert(table, GroupOf(dto), Entries(dto), user);
            Typed(table') && Current(table', GroupOf(dto)) == dto &&
            forall h: Group | h != GroupOf(dto) :: Current(table', h) == Current(table, h)
  {
    var table' := Upsert(table, GroupOf(dto), Entries(dto), user);
    UpdateThenRead(table, dto, user);
    forall h: Group
      ensures Numerals(ReadGroup(table', h))
      ensures h != GroupOf(dto) ==> ReadGroup(table', h) == ReadGroup(table, h)
    {
      if h != GroupOf(dto) {
        UpsertKeepsOthers(table, GroupOf(dto), Entries(dto), user, h);
        assert Numerals(ReadGroup(table, h));
      }
    }
  }

  // ----- Calls and runs -----

  const TTL: nat := 300_000

  datatype Cached = Cached(value: Dto, storedAt: nat)

  datatype State = State(table: Table, cache: map<Group, Cached>, now: nat)

  predicate Live(s: State, g: Group) {
    g in s.cache && s.now <= s.cache[g].storedAt + TTL
  }

  function Get(s: State, g: Group): (State, Dto)
    requires Typed(s.table)
  {
    if Live(s, g) then (s, s.cache[g].value)
    else
      var value := Current(s.table, g);
      (s.(cache := s.cache[g := Cached(value, s.now)]), value)
  }

  /** After the upserts the group's cache entry goes. */
  function Written(s: State, dto: Dto, user: string): (r: State)
    requires Typed(s.table)
    ensures Typed(r.table)
  {
    UpdateChangesOneGroup(s.table, dto, user);
    s.(table := Upsert(s.table, GroupOf(dto), Entries(dto), user), cache := s.cache - {GroupOf(dto)})
  }

  datatype Op = Read(group: Group) | Update(dto: Dto, user: string) | Wait(elapsed: nat)

  /** Everything cached is what the table says. */
  ghost predicate Agrees(s: State) {
    Typed(s.table) && forall g | g in s.cache :: s.cache[g].value == Current(s.table, g)
  }

  /** A cached group is answered for 300 000 ms from when it was stored, the last instant included, and not after. */
  lemma CachedFor(s: State, g: Group)
    requires Typed(s.table) && g in s.cache && s.cache[g].storedAt <= s.now
    ensures s.now - s.cache[g].storedAt <= 300_000 ==> Get(s, g) == (s, s.cache[g].value)
    ensures s.now - s.cache[g].storedAt > 300_000 ==>
              Get(s, g) == (s.(cache := s.cache[g := Cached(Current(s.table, g), s.now)]), Current(s.table, g))
  {
  }

  lemma WriteKeepsAgreement(s: State, dto: Dto, user: string)
    requires Agrees(s)
    ensures var s' := Written(s, dto, user);
            && Agrees(s') && Current(s'.table, GroupOf(dto)) == dto
            && forall h: Group | h != GroupOf(dto) :: Current(s'.table, h) == Current(s.table, h)
  {
    UpdateChangesOneGroup(s.table, dto, user);
  }

  /** Updates answer with a fresh read of their group. */
  function Apply(s: State, op: Op): State
    requires Typed(s.table)
  {
    match op
    case Read(g) => Get(s, g).0
    case Update(dto, user) => Get(Written(s, dto, user), GroupOf(dto)).0
    case Wait(elapsed) => s.(now := s.now + elapsed)
  }

  lemma ApplyKeepsAgreement(s: State, op: Op)
    requires Agrees(s)
    ensures Agrees(Apply(s, op))
  {
    if op.Update? {
      WriteKeepsAgreement(s, op.dto, op.user);
    }
  }

  ghost predicate Linked(states: seq<State>, ops: seq<Op>, i: nat)
    requires i < |ops| && i + 1 < |states|
  {
    Typed(states[i].table) && states[i + 1] == Apply(states[i], ops[i])
  }

  /** A run from any table whose number rows hold numerals, with an empty cache. */
  ghost predicate Run(states: seq<State>, ops: seq<Op>) {
    && |states| == |ops| + 1
    && states[0].cache == map[] && Typed(states[0].table)
    && forall i | 0 <= i < |ops| :: Linked(states, ops, i)
  }

  /** The DTO last written to a group by the first n operations. */
  function LastWritten(ops: seq<Op>, n: nat, g: Group): Option<Dto>
    requires n <= |ops|
  {
    if n == 0 then None
    else if ops[n - 1].Update? && GroupOf(ops[n - 1].dto) == g then Some(ops[n - 1].dto)
    else LastWritten(ops, n - 1, g)
  }

  lemma ApplyChangesTable(s: State, op: Op, g: Group)
    requires Agrees(s)
    ensures Agrees(Apply(s, op))
    ensures Current(Apply(s, op).table, g) ==
            if op.Update? && GroupOf(op.dto) == g then op.dto else Current(s.table, g)
  {
    ApplyKeepsAgreement(s, op);
    if op.Update? {
      UpdateChangesOneGroup(s.table, op.dto, op.user);
    }
  }

  lemma StepChangesTable(states: seq<State>, ops: seq<Op>, n: nat, g: Group)
    requires Run(states, ops) && n < |ops| && Agrees(states[n])
    ensures Agrees(states[n + 1])
    ensures Current(states[n + 1].table, g) ==
            if ops[n].Update? && GroupOf(ops[n].dto) == g then ops[n].dto else Current(states[n].table, g)
  {
    assert Linked(states, ops, n);
    ApplyChangesTable(states[n], ops[n], g);
  }

  lemma {:induction false} TableFollowsWrites(states: seq<State>, ops: seq<Op>, n: nat, g: Group)
    requires Run(states, ops) && n <= |ops|
    ensures Agrees(states[n])
    ensures Current(states[n].table, g) ==
            match LastWritten(ops, n, g) case Some(dto) => dto case None => Current(states[0].table, g)
  {
    if n > 0 {
      TableFollowsWrites(states, ops, n - 1, g);
      StepChangesTable(states, ops, n - 1, g);
    }
  }

  /**
   * Read your writes: after any sequence of reads, updates and waiting, a group's get answers exactly the DTO last
   * written to it, or what the table held at the start.
   */
  lemma ReadYourWrites(states: seq<State>, ops: seq<Op>, n: nat, g: Group)
    requires Run(states, ops) && n <= |ops|
    ensures Typed(states[n].table)
    ensures Get(states[n], g).1 ==
            match LastWritten(ops, n, g) case Some(dto) => dto case None => Current(states[0].table, g)
  {
    TableFollowsWrites(states, ops, n, g);
  }

  /** An empty table answers with the defaults. */
  lemma Defaults()
    ensures Typed(map[])
    ensures Current(map[], Campaign) == CampaignSettings("2025-2026", 10, 9)
    ensures Current(map[], Certification) == CertificationSettings(365, 90)
    ensures Current(map[], Platform) == PlatformSettings(false, "support@terroir.ma")
  {
    var none: Table := map[];
    assert forall g: Group :: ReadGroup(none, g) == map[];
    assert |""| != |"true"|;
  }

  // ----- The service -----

  class SystemSettingsService {
    var table: Table
    var cache: map<Group, Cached>
    var now: nat

    function View(): State
      reads this
    {
      State(table, cache, now)
    }

    ghost predicate Valid()
      reads this
    {
      Agrees(View())
    }

    constructor (table: Table, now: nat)
      requires Typed(table)
      ensures Valid() && View() == State(table, map[], now)
    {
      this.table, this.cache, this.now := table, map[], now;
    }

    method UpsertGroup(group: Group, entries: seq<(string, JsValue)>, user: string)
      modifies this`table, this`cache
      ensures table == Upsert(old(table), group, entries, user)
      ensures cache == old(cache) - {group}
    {
      ghost var before := table;
      for i := 0 to |entries|
        invariant table == Upsert(before, group, entries[..i], user) && cache == old(cache)
      {
        var (key, value) := entries[i];
        assert entries[..i + 1][..i] == entries[..i];
        table := table[Key(group, Snake(key)) := Row(TextOf(value), Some(user))];
      }
      assert entries[..|entries|] == entries;
      cache := cache - {group};
    }

    method GetSettings(group: Group) returns (r: Dto)
      requires Valid()
      modifies this`cache
      ensures Valid() && r == Current(table, group)
      ensures (View(), r) == Get(old(View()), group)
    {
      if group in cache && now <= cache[group].storedAt + TTL {
        return cache[group].value;
      }
      var kv := ReadGroup(table, group);
      r := Decode(group, kv);
      cache := cache[group := Cached(r, now)];
    }

    method UpdateSettings(dto: Dto, user: string) returns (r: Dto)
      requires Valid()
      modifies this`table, this`cache
      ensures Valid() && r == dto
      ensures View() == Apply(old(View()), Update(dto, user))
      ensures forall h: Group | h != GroupOf(dto) :: Current(table, h) == old(Current(table, h))
    {
      WriteKeepsAgreement(View(), dto, user);
      UpsertGroup(GroupOf(dto), Entries(dto), user);
      assert View() == Written(old(View()), dto, user);
      r := GetSettings(GroupOf(dto));
    }
  }
}

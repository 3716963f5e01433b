/** Notification templates: database rows over files, resolved through a cache. */
module Templates {
  import opened Text

  /** What a template is looked up by. */
  datatype Slot = Slot(code: string, channel: string, language: string)

  datatype Template = Template(slot: Slot, subject: Option<string>, body: string, isActive: bool)

  /** The DTO admits only email/sms and three language tags; none of them contains a colon. */
  predicate WellFormed(s: Slot) {
    ':' !in s.channel && ':' !in s.language
  }

  /** template:{code}:{channel}:{language} */
  function CacheKey(s: Slot): string {
    "template:" + (s.code + [':'] + s.channel + [':'] + s.language)
  }

  function ReadKey(text: string): Option<Slot> {
    match SplitLast(text, ':')
    case None => None
    case Some((front, language)) =>
      match SplitLast(front, ':')
      case None => None
      case Some((code, channel)) => Some(Slot(code, channel, language))
  }

  lemma KeyReadsBack(s: Slot)
    requires WellFormed(s)
    ensures ReadKey(s.code + [':'] + s.channel + [':'] + s.language) == Some(s)
  {
    SplitLastAt(s.code + [':'] + s.channel, ':', s.language);
    SplitLastAt(s.code, ':', s.channel);
  }

  /** Different slots never share a cache key, even when the code contains colons. */
  lemma KeyInjective(s: Slot, t: Slot)
    requires WellFormed(s) && WellFormed(t) && CacheKey(s) == CacheKey(t)
    ensures s == t
  {
    var a := s.code + [':'] + s.channel + [':'] + s.language;
    var b := t.code + [':'] + t.channel + [':'] + t.language;
    assert a == CacheKey(s)[|"template:"|..] && b == CacheKey(t)[|"template:"|..];
    KeyReadsBack(s);
    KeyReadsBack(t);
  }

  datatype Entry = Entry(template: Template, storedAt: nat)

  datatype File = File(slot: Slot, body: string)

  datatype State = State(rows: seq<Template>, cache: map<string, Entry>, files: seq<File>, now: nat)

  const TTL: nat := 600_000

  // ----- Lookups -----

  predicate IsActiveRow(rows: seq<Template>, slot: Slot, id: nat) {
    id < |rows| && rows[id].slot == slot && rows[id].isActive
  }

  function FirstActive(rows: seq<Template>, slot: Slot, from: nat): (r: Option<nat>)
    requires from <= |rows|
    ensures r.Some? ==> IsActiveRow(rows, slot, r.value)
    ensures r.None? ==> forall id | from <= id :: !IsActiveRow(rows, slot, id)
    decreases |rows| - from
  {
    if from == |rows| then None
    else if IsActiveRow(rows, slot, from) then Some(from)
    else FirstActive(rows, slot, from + 1)
  }

  /** findOne without an order; pick is the row the database happens to return. */
  function FindActive(rows: seq<Template>, slot: Slot, pick: nat): (r: Option<nat>)
    ensures r.Some? ==> IsActiveRow(rows, slot, r.value)
    ensures r.None? ==> forall id: nat :: !IsActiveRow(rows, slot, id)
  {
    if IsActiveRow(rows, slot, pick) then Some(pick) else FirstActive(rows, slot, 0)
  }

  /** The template of the first file of the slot: its text as body, no subject, active. */
  function FileTemplate(files: seq<File>, slot: Slot): (r: Option<Template>)
    ensures r.None? <==> forall f | 0 <= f < |files| :: files[f].slot != slot
    ensures r.Some? ==>
              exists f | 0 <= f < |files| ::
                && files[f].slot == slot && (forall g | 0 <= g < f :: files[g].slot != slot)
                && r.value.slot == slot && r.value.subject == None && r.value.body == files[f].body && r.value.isActive
  {
    if files == [] then None
    else if files[0].slot == slot then Some(Template(slot, None, files[0].body, true))
    else FileTemplate(files[1..], slot)
  }

  predicate Live(s: State, key: string) {
    key in s.cache && s.now <= s.cache[key].storedAt + TTL
  }

  /** Cache, then row, then file; only a row is cached. */
  function Resolve(s: State, slot: Slot, pick: nat): (State, Option<Template>) {
    var key := CacheKey(slot);
    if Live(s, key) then (s, Some(s.cache[key].template))
    else
      match FindActive(s.rows, slot, pick)
      case Some(id) => (s.(cache := s.cache[key := Entry(s.rows[id], s.now)]), Some(s.rows[id]))
      case None => (s, FileTemplate(s.files, slot))
  }

  // ----- Changes -----

  datatype Patch = Patch(
    code: Option<string>, channel: Option<string>, language: Option<string>, subject: Option<string>,
    body: Option<string>, isActive: Option<bool>)

  function Or<T>(new_: Option<T>, old_: T): T {
    match new_
    case None => old_
    case Some(v) => v
  }

  predicate Sets<T(==)>(given: Option<T>, old_: T, new_: T) {
    new_ == if given.Some? then given.value else old_
  }

  /** { ...existing, ...dto } */
  function Patched(t: Template, p: Patch): Template {
    Template(Slot(Or(p.code, t.slot.code), Or(p.channel, t.slot.channel), Or(p.language, t.slot.language)),
             if p.subject.Some? then p.subject else t.subject, Or(p.body, t.body), Or(p.isActive, t.isActive))
  }

  /** Each column given is stored and each column not given kept. */
  predicate PatchedBy(t: Template, p: Patch, r: Template) {
    && Sets(p.code, t.slot.code, r.slot.code) && Sets(p.channel, t.slot.channel, r.slot.channel)
    && Sets(p.language, t.slot.language, r.slot.language) && Sets(p.body, t.body, r.body)
    && Sets(p.isActive, t.isActive, r.isActive)
    && (if p.subject.Some? then r.subject == Some(p.subject.value) else r.subject == t.subject)
  }

  /** Saves a row and evicts the key of the row as saved. */
  function Saved(s: State, id: nat, t: Template): State
    requires id < |s.rows|
  {
    s.(rows := s.rows[id := t], cache := s.cache - {CacheKey(t.slot)})
  }

  predicate HasRow(rows: seq<Template>, slot: Slot) {
    exists id | 0 <= id < |rows| :: rows[id].slot == slot
  }

  /** One pass over the files, adding a row for each slot that has none. */
  function Seeded(rows: seq<Template>, files: seq<File>): (r: seq<Template>)
    ensures |rows| <= |r| && r[..|rows|] == rows
  {
    if files == [] then rows
    else
      var before := Seeded(rows, files[..|files| - 1]);
      var last := files[|files| - 1];
      if HasRow(before, last.slot) then before else before + [Template(last.slot, None, last.body, true)]
  }

  datatype Op =
    | Create(template: Template)
    | Update(id: nat, patch: Patch)
    | Deactivate(id: nat)
    | Seed
    | Send(slot: Slot, pick: nat)
    | Wait(elapsed: nat)

  function Apply(s: State, op: Op): State {
    match op
    case Create(t) => s.(rows := s.rows + [t])
    case Update(id, patch) => if id < |s.rows| then Saved(s, id, Patched(s.rows[id], patch)) else s
    case Deactivate(id) => if id < |s.rows| then Saved(s, id, s.rows[id].(isActive := false)) else s
    case Seed => s.(rows := Seeded(s.rows, s.files))
    case Send(slot, pick) => Resolve(s, slot, pick).0
    case Wait(elapsed) => s.(now := s.now + elapsed)
  }

  /** Slots are well formed. */
  predicate Sane(s: State, op: Op) {
    match op
    case Create(t) => WellFormed(t.slot)
    case Update(id, patch) => id < |s.rows| ==> WellFormed(Patched(s.rows[id], patch).slot)
    case Send(slot, _) => WellFormed(slot)
    case _ => true
  }

  /** An update that moves a row to another slot. */
  predicate Renames(s: State, op: Op) {
    op.Update? && op.id < |s.rows| && Patched(s.rows[op.id], op.patch).slot != s.rows[op.id].slot
  }

  ghost predicate Linked(states: seq<State>, ops: seq<Op>, i: nat)
    requires i < |ops| && i + 1 < |states|
  {
    Sane(states[i], ops[i]) && states[i + 1] == Apply(states[i], ops[i])
  }

  /** Every update keeps code, channel and language. */
  ghost predicate KeepsSlots(states: seq<State>, ops: seq<Op>)
    requires |states| == |ops| + 1
  {
    forall i | 0 <= i < |ops| :: !Renames(states[i], ops[i])
  }

  /** A run from an empty cache. */
  ghost predicate Run(states: seq<State>, ops: seq<Op>) {
    && |states| == |ops| + 1
    && states[0].cache == map[] && SlotsWellFormed(states[0])
    && forall i | 0 <= i < |ops| :: Linked(states, ops, i)
  }

  // ----- Agreement -----

  predicate SlotsWellFormed(s: State) {
    && (forall id | 0 <= id < |s.rows| :: WellFormed(s.rows[id].slot))
    && (forall f | 0 <= f < |s.files| :: WellFormed(s.files[f].slot))
  }

  /** Row id is active, belongs under the key and reads t. */
  predicate Backs(rows: seq<Template>, key: string, t: Template, id: nat) {
    id < |rows| && rows[id].isActive && CacheKey(rows[id].slot) == key && rows[id] == t
  }

  ghost predicate CacheAgrees(s: State) {
    forall key | key in s.cache :: exists id: nat :: Backs(s.rows, key, s.cache[key].template, id)
  }

  lemma AppendKeepsAgreement(s: State, rows: seq<Template>)
    requires CacheAgrees(s) && |s.rows| <= |rows| && rows[..|s.rows|] == s.rows
    ensures CacheAgrees(s.(rows := rows))
  {
    forall key | key in s.cache
      ensures exists id: nat :: Backs(rows, key, s.cache[key].template, id)
    {
      var id: nat :| Backs(s.rows, key, s.cache[key].template, id);
      assert rows[id] == rows[..|s.rows|][id];
      assert Backs(rows, key, s.cache[key].template, id);
    }
  }

  /** An entry that survives a save is still backed unless it was backed only by the row under its old key. */
  lemma SaveKeepsAgreement(s: State, id: nat, t: Template)
    requires CacheAgrees(s) && id < |s.rows| && CacheKey(t.slot) == CacheKey(s.rows[id].slot)
    ensures CacheAgrees(Saved(s, id, t))
  {
    var s' := Saved(s, id, t);
    forall key | key in s'.cache
      ensures exists j: nat :: Backs(s'.rows, key, s'.cache[key].template, j)
    {
      var j: nat :| Backs(s.rows, key, s.cache[key].template, j);
      assert j != id;
      assert Backs(s'.rows, key, s'.cache[key].template, j);
    }
  }

  lemma {:induction false} SeededSlots(rows: seq<Template>, files: seq<File>)
    requires forall id | 0 <= id < |rows| :: WellFormed(rows[id].slot)
    requires forall f | 0 <= f < |files| :: WellFormed(files[f].slot)
    ensures forall id | 0 <= id < |Seeded(rows, files)| :: WellFormed(Seeded(rows, files)[id].slot)
  {
    if files != [] {
      SeededSlots(rows, files[..|files| - 1]);
    }
  }

  lemma SendKeepsAgreement(s: State, slot: Slot, pick: nat)
    requires CacheAgrees(s)
    ensures CacheAgrees(Resolve(s, slot, pick).0)
  {
    var s' := Resolve(s, slot, pick).0;
    forall key | key in s'.cache
      ensures exists id: nat :: Backs(s'.rows, key, s'.cache[key].template, id)
    {
      if key in s.cache && s'.cache[key] == s.cache[key] {
        var id: nat :| Backs(s.rows, key, s.cache[key].template, id);
        assert Backs(s'.rows, key, s'.cache[key].template, id);
      } else {
        var id := FindActive(s.rows, slot, pick).value;
        assert Backs(s'.rows, key, s'.cache[key].template, id);
      }
    }
  }

  lemma StepKeepsAgreement(s: State, op: Op)
    requires CacheAgrees(s) && SlotsWellFormed(s) && Sane(s, op) && !Renames(s, op)
    ensures CacheAgrees(Apply(s, op)) && SlotsWellFormed(Apply(s, op))
  {
    match op
    case Create(t) => AppendKeepsAgreement(s, s.rows + [t]);
    case Update(id, patch) =>
      if id < |s.rows| {
        SaveKeepsAgreement(s, id, Patched(s.rows[id], patch));
      }
    case Deactivate(id) =>
      if id < |s.rows| {
        SaveKeepsAgreement(s, id, s.rows[id].(isActive := false));
      }
    case Seed =>
      SeededSlots(s.rows, s.files);
      AppendKeepsAgreement(s, Seeded(s.rows, s.files));
    case Send(slot, pick) => SendKeepsAgreement(s, slot, pick);
    case Wait(_) =>
  }

  lemma {:induction false} RunKeepsAgreement(states: seq<State>, ops: seq<Op>, n: nat)
    requires Run(states, ops) && KeepsSlots(states, ops) && n <= |ops|
    ensures CacheAgrees(states[n]) && SlotsWellFormed(states[n])
  {
    if n > 0 {
      RunKeepsAgreement(states, ops, n - 1);
      assert Linked(states, ops, n - 1);
      StepKeepsAgreement(states[n - 1], ops[n - 1]);
    }
  }

  /** What a send should use: a currently active row with its current content, else the file, else nothing. */
  ghost predicate UpToDate(s: State, slot: Slot, r: Option<Template>) {
    if exists id: nat :: IsActiveRow(s.rows, slot, id)
    then r.Some? && exists id: nat :: IsActiveRow(s.rows, slot, id) && s.rows[id] == r.value
    else r == FileTemplate(s.files, slot)
  }

  lemma AgreementIsUpToDate(s: State, slot: Slot, pick: nat)
    requires CacheAgrees(s) && SlotsWellFormed(s) && WellFormed(slot)
    ensures UpToDate(s, slot, Resolve(s, slot, pick).1)
  {
    var key := CacheKey(slot);
    if Live(s, key) {
      var id: nat :| Backs(s.rows, key, s.cache[key].template, id);
      KeyInjective(s.rows[id].slot, slot);
      assert IsActiveRow(s.rows, slot, id);
    } else {
      NotCachedIsUpToDate(s, slot, pick);
    }
  }

  /**
   * In every run whose updates keep code, channel and language, send uses a currently active row with its current
   * content, else the file, else none - however long ago anything was cached.
   */
  lemma SendIsUpToDate(states: seq<State>, ops: seq<Op>, n: nat, slot: Slot, pick: nat)
    requires Run(states, ops) && KeepsSlots(states, ops) && n <= |ops| && WellFormed(slot)
    ensures UpToDate(states[n], slot, Resolve(states[n], slot, pick).1)
  {
    RunKeepsAgreement(states, ops, n);
    AgreementIsUpToDate(states[n], slot, pick);
  }

  // ----- Renaming -----

  /**
   * A rename evicts the new key, not the old one. A send under the old slot then uses what it should exactly when no
   * live entry is left there, or another active row of the old slot reads the same, or no active row remains there and
   * the file does.
   */
  lemma RenameAgreesIff(s: State, id: nat, t: Template, pick: nat)
    requires id < |s.rows| && CacheKey(t.slot) != CacheKey(s.rows[id].slot)
    ensures var old_ := s.rows[id].slot;
            var s', key := Saved(s, id, t), CacheKey(old_);
            UpToDate(s', old_, Resolve(s', old_, pick).1) <==>
            (Live(s, key) ==>
               || (exists j: nat :: j != id && IsActiveRow(s.rows, old_, j) && s.rows[j] == s.cache[key].template)
               || ((forall j: nat | j != id :: !IsActiveRow(s.rows, old_, j)) &&
                   FileTemplate(s.files, old_) == Some(s.cache[key].template)))
  {
    var old_ := s.rows[id].slot;
    var s', key := Saved(s, id, t), CacheKey(old_);
    assert forall j: nat :: IsActiveRow(s'.rows, old_, j) <==> j != id && IsActiveRow(s.rows, old_, j);
    assert forall j: nat | j != id && j < |s.rows| :: s'.rows[j] == s.rows[j];
    assert Live(s', key) == Live(s, key);
    if Live(s, key) {
      assert Resolve(s', old_, pick).1 == Some(s.cache[key].template);
    } else {
      NotCachedIsUpToDate(s', old_, pick);
    }
  }

  lemma NotCachedIsUpToDate(s: State, slot: Slot, pick: nat)
    requires !Live(s, CacheKey(slot))
    ensures UpToDate(s, slot, Resolve(s, slot, pick).1)
  {
    var found := FindActive(s.rows, slot, pick);
    if found.Some? {
      assert IsActiveRow(s.rows, slot, found.value);
    }
  }

  /** An entry is used for 600 000 ms from when it was stored, the last instant included, and not after. */
  lemma CachedFor(s: State, slot: Slot, pick: nat)
    requires CacheKey(slot) in s.cache && s.cache[CacheKey(slot)].storedAt <= s.now
    ensures var e := s.cache[CacheKey(slot)];
            && (s.now - e.storedAt <= 600_000 ==> Resolve(s, slot, pick) == (s, Some(e.template)))
            && (s.now - e.storedAt > 600_000 ==> UpToDate(s, slot, Resolve(s, slot, pick).1))
  {
    if s.now - s.cache[CacheKey(slot)].storedAt > 600_000 {
      NotCachedIsUpToDate(s, slot, pick);
    }
  }

  /** A template found in the table is cached, one found in a file is not. */
  lemma OnlyRowsAreCached(s: State, slot: Slot, pick: nat)
    requires !Live(s, CacheKey(slot))
    ensures var (s', r) := Resolve(s, slot, pick);
            if exists id: nat :: IsActiveRow(s.rows, slot, id) then
              r.Some? && s' == s.(cache := s.cache[CacheKey(slot) := Entry(r.value, s.now)])
            else s' == s
  {
    var found := FindActive(s.rows, slot, pick);
    if found.Some? {
      assert IsActiveRow(s.rows, slot, found.value);
    }
  }

  // ----- Bounded staleness, renames included -----

  /** The entry was an active row of its slot when it was stored. */
  ghost predicate EntryWas(states: seq<State>, j: nat, n: nat, slot: Slot)
    requires n < |states| && CacheKey(slot) in states[n].cache
  {
    var e := states[n].cache[CacheKey(slot)];
    && j <= n && states[j].now == e.storedAt
    && exists id: nat :: IsActiveRow(states[j].rows, slot, id) && states[j].rows[id] == e.template
  }

  /** An entry after an operation was there before or is an active row sent now. */
  lemma EntryAfter(s: State, op: Op, slot: Slot)
    requires WellFormed(slot) && Sane(s, op) && CacheKey(slot) in Apply(s, op).cache
    ensures var e := Apply(s, op).cache[CacheKey(slot)];
            || (CacheKey(slot) in s.cache && e == s.cache[CacheKey(slot)])
            || (e.storedAt == s.now && exists id: nat :: IsActiveRow(s.rows, slot, id) && s.rows[id] == e.template)
  {
    if op.Send? && CacheKey(op.slot) == CacheKey(slot) {
      KeyInjective(op.slot, slot);
      var found := FindActive(s.rows, slot, op.pick);
      assert found.Some? ==> IsActiveRow(s.rows, slot, found.value);
    }
  }

  lemma {:induction false} EntryExplained(states: seq<State>, ops: seq<Op>, n: nat, slot: Slot) returns (j: nat)
    requires Run(states, ops) && n <= |ops| && WellFormed(slot) && CacheKey(slot) in states[n].cache
    ensures EntryWas(states, j, n, slot)
  {
    assert n > 0;
    assert Linked(states, ops, n - 1);
    EntryAfter(states[n - 1], ops[n - 1], slot);
    var key := CacheKey(slot);
    if key in states[n - 1].cache && states[n].cache[key] == states[n - 1].cache[key] {
      j := EntryExplained(states, ops, n - 1, slot);
    } else {
      j := n - 1;
    }
  }

  lemma {:induction false} ClockIsMonotone(states: seq<State>, ops: seq<Op>, j: nat, n: nat)
    requires Run(states, ops) && j <= n <= |ops|
    ensures states[j].now <= states[n].now
    decreases n
  {
    if j < n {
      assert Linked(states, ops, n - 1);
      ClockIsMonotone(states, ops, j, n - 1);
    }
  }

  /**
   * In every run, renames included, what a send uses is what it should have used at some instant of the last
   * 600 000 ms: an active row's content, else the file, else none.
   */
  lemma SendIsRecent(states: seq<State>, ops: seq<Op>, n: nat, slot: Slot, pick: nat) returns (j: nat)
    requires Run(states, ops) && n <= |ops| && WellFormed(slot)
    ensures j <= n && states[j].now <= states[n].now <= states[j].now + 600_000
    ensures UpToDate(states[j], slot, Resolve(states[n], slot, pick).1)
  {
    if Live(states[n], CacheKey(slot)) {
      j := EntryExplained(states, ops, n, slot);
      ClockIsMonotone(states, ops, j, n);
    } else {
      j := n;
      NotCachedIsUpToDate(states[n], slot, pick);
    }
  }

  /** Concretely: send, rename, send again under the old code - the renamed row is still used. */
  lemma RenameLeavesStaleEntry(subject: Option<string>, body: string)
    ensures var slot := Slot("granted", "email", "fr-MA");
            var row := Template(slot, subject, body, true);
            var s0 := State([row], map[], [], 0);
            var s1 := Apply(s0, Send(slot, 0));
            var s2 := Apply(s1, Update(0, Patch(Some("issued"), None, None, None, None, None)));
            Resolve(s2, slot, 0).1 == Some(row) && !UpToDate(s2, slot, Some(row))
  {
    var slot, moved := Slot("granted", "email", "fr-MA"), Slot("issued", "email", "fr-MA");
    assert moved.code[0] != slot.code[0];
    assert WellFormed(slot) && WellFormed(moved);
    if CacheKey(slot) == CacheKey(moved) {
      KeyInjective(slot, moved);
    }
    var row := Template(slot, subject, body, true);
    var s0 := State([row], map[], [], 0);
    var s1 := Apply(s0, Send(slot, 0));
    assert IsActiveRow(s0.rows, slot, 0);
    assert s1.cache == map[CacheKey(slot) := Entry(row, 0)];
    var s2 := Apply(s1, Update(0, Patch(Some("issued"), None, None, None, None, None)));
    assert s2.rows == [row.(slot := moved)];
    assert forall id: nat :: !IsActiveRow(s2.rows, slot, id);
  }

  // ----- Seeding -----

  /** Every row that seeding adds is an active template of a file whose slot had no row, with the file's text. */
  lemma {:induction false} SeededSays(rows: seq<Template>, files: seq<File>, k: nat) returns (f: nat)
    requires |rows| <= k < |Seeded(rows, files)|
    ensures f < |files| && forall id | 0 <= id < k :: Seeded(rows, files)[id].slot != files[f].slot
    ensures var t := Seeded(rows, files)[k];
            t.slot == files[f].slot && t.body == files[f].body && t.subject == None && t.isActive
  {
    var n := |files| - 1;
    var before := Seeded(rows, files[..n]);
    if k < |before| {
      f := SeededSays(rows, files[..n], k);
      assert files[..n][f] == files[f];
      assert forall id | 0 <= id <= k :: Seeded(rows, files)[id] == before[id];
    } else {
      f := n;
      assert forall id | 0 <= id < |before| :: before[id].slot != files[n].slot;
    }
  }

  lemma {:induction false} SeedingCovers(rows: seq<Template>, files: seq<File>, f: nat)
    requires f < |files|
    ensures HasRow(Seeded(rows, files), files[f].slot)
  {
    var n := |files| - 1;
    var before, after := Seeded(rows, files[..n]), Seeded(rows, files);
    if f < n {
      SeedingCovers(rows, files[..n], f);
      var id: nat :| 0 <= id < |before| && before[id].slot == files[f].slot;
      assert after[id] == before[id];
    } else if !HasRow(before, files[n].slot) {
      assert after[|before|].slot == files[n].slot;
    }
  }

  lemma {:induction false} SeedingCoveredAddsNothing(rows: seq<Template>, files: seq<File>)
    requires forall f | 0 <= f < |files| :: HasRow(rows, files[f].slot)
    ensures Seeded(rows, files) == rows
  {
    if files != [] {
      SeedingCoveredAddsNothing(rows, files[..|files| - 1]);
    }
  }

  /** Seeding twice is seeding once: a second pass finds every slot taken. */
  lemma SeedingIsIdempotent(rows: seq<Template>, files: seq<File>)
    ensures Seeded(Seeded(rows, files), files) == Seeded(rows, files)
  {
    forall f | 0 <= f < |files|
      ensures HasRow(Seeded(rows, files), files[f].slot)
    {
      SeedingCovers(rows, files, f);
    }
    SeedingCoveredAddsNothing(Seeded(rows, files), files);
  }

  // ----- The services -----

  /** The template table, the shared cache, the template directory and the clock. */
  class TemplateStore {
    var rows: seq<Template>
    var cache: map<string, Entry>
    var files: seq<File>
    var now: nat

    function View(): State
      reads this
    {
      State(rows, cache, files, now)
    }

    constructor (files: seq<File>, now: nat)
      ensures View() == State([], map[], files, now)
    {
      this.rows, this.cache, this.files, this.now := [], map[], files, now;
    }
  }

  class NotificationTemplateService {
    const store: TemplateStore

    constructor (store: TemplateStore)
      ensures this.store == store
    {
      this.store := store;
    }

    method Create(t: Template) returns (id: nat)
      modifies store`rows
      ensures id == |old(store.rows)| && store.View() == Apply(old(store.View()), Op.Create(t))
      ensures store.rows == old(store.rows) + [t]
    {
      id := |store.rows|;
      store.rows := store.rows + [t];
    }

    method Update(id: nat, patch: Patch) returns (r: Option<Template>)
      modifies store`rows, store`cache
      ensures store.View() == Apply(old(store.View()), Op.Update(id, patch))
      ensures r.Some? <==> id < |old(store.rows)|
      ensures r.Some? ==>
                && PatchedBy(old(store.rows)[id], patch, r.value) && store.rows == old(store.rows)[id := r.value]
                && store.cache == old(store.cache) - {CacheKey(r.value.slot)}
      ensures r.None? ==> store.rows == old(store.rows) && store.cache == old(store.cache)
    {
      if id >= |store.rows| {
        return None;
      }
      var updated := Patched(store.rows[id], patch);
      store.rows := store.rows[id := updated];
      store.cache := store.cache - {CacheKey(updated.slot)};
      r := Some(updated);
    }

    method Deactivate(id: nat) returns (r: Option<Template>)
      modifies store`rows, store`cache
      ensures store.View() == Apply(old(store.View()), Op.Deactivate(id))
      ensures r == if id < |old(store.rows)| then Some(old(store.rows)[id].(isActive := false)) else None
      ensures r.Some? ==>
                && !r.value.isActive && store.rows == old(store.rows)[id := r.value]
                && store.cache == old(store.cache) - {CacheKey(r.value.slot)}
    {
      if id >= |store.rows| {
        return None;
      }
      var updated := store.rows[id].(isActive := false);
      store.rows := store.rows[id := updated];
      store.cache := store.cache - {CacheKey(updated.slot)};
      r := Some(updated);
    }

    method RowExists(slot: Slot) returns (exists_: bool)
      ensures exists_ == HasRow(store.rows, slot)
    {
      var i := 0;
      while i < |store.rows|
        invariant i <= |store.rows|
        invariant forall k | 0 <= k < i :: store.rows[k].slot != slot
      {
        if store.rows[i].slot == slot {
          return true;
        }
        i := i + 1;
      }
      exists_ := false;
    }

    method SeedFromFiles()
      modifies store`rows
      ensures store.View() == Apply(old(store.View()), Op.Seed)
    {
      ghost var before := store.rows;
      for i := 0 to |store.files|
        invariant store.rows == Seeded(before, store.files[..i])
      {
        var file := store.files[i];
        assert store.files[..i + 1][..i] == store.files[..i];
        var taken := RowExists(file.slot);
        if !taken {
          store.rows := store.rows + [Template(file.slot, None, file.body, true)];
        }
      }
      assert store.files[..|store.files|] == store.files;
    }

    method SeedCounting() returns (seeded: nat)
      modifies store`rows
      ensures store.View() == Apply(old(store.View()), Op.Seed)
      ensures |store.rows| == |old(store.rows)| + seeded
    {
      var before := |store.rows|;
      SeedFromFiles();
      seeded := |store.rows| - before;
    }
  }

  class NotificationService {
    const store: TemplateStore

    constructor (store: TemplateStore)
      ensures this.store == store
    {
      this.store := store;
    }

    method FindActiveTemplate(slot: Slot, pick: nat) returns (r: Option<nat>)
      ensures r == FindActive(store.rows, slot, pick)
    {
      if IsActiveRow(store.rows, slot, pick) {
        return Some(pick);
      }
      var i := 0;
      while i < |store.rows|
        invariant i <= |store.rows|
        invariant FirstActive(store.rows, slot, 0) == FirstActive(store.rows, slot, i)
      {
        if IsActiveRow(store.rows, slot, i) {
          return Some(i);
        }
        i := i + 1;
      }
      r := None;
    }

    method ReadFile(slot: Slot) returns (r: Option<Template>)
      ensures r == FileTemplate(store.files, slot)
    {
      var i := 0;
      while i < |store.files|
        invariant i <= |store.files|
        invariant FileTemplate(store.files, slot) == FileTemplate(store.files[i..], slot)
      {
        if store.files[i].slot == slot {
          return Some(Template(slot, None, store.files[i].body, true));
        }
        i := i + 1;
      }
      r := None;
    }

    /** The three lookup stages of send. */
    method ResolveTemplate(slot: Slot, pick: nat) returns (template: Option<Template>)
      modifies store`cache
      ensures (store.View(), template) == Resolve(old(store.View()), slot, pick)
    {
      var cacheKey := CacheKey(slot);
      template := None;
      if cacheKey in store.cache && store.now <= store.cache[cacheKey].storedAt + TTL {
        template := Some(store.cache[cacheKey].template);
      }
      if template.None? {
        var dbTemplate := FindActiveTemplate(slot, pick);
        if dbTemplate.Some? {
          store.cache := store.cache[cacheKey := Entry(store.rows[dbTemplate.value], store.now)];
          template := Some(store.rows[dbTemplate.value]);
        } else {
          template := ReadFile(slot);
        }
      }
    }
  }
}

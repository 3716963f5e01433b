/**
 * CSV as the exporters print it and as section 2 of RFC 4180 reads it (a bare LF also ends a record). A printed table
 * reads back to its own values exactly when no unquoted cell contains a comma, a quote, CR or LF.
 */
module Csv {
  import opened Text

  /** The exporters quote one column, doubling its quotes, and print the others as they are. */
  datatype Cell = Plain(text: string) | Quoted(text: string)

  type Table = seq<seq<string>>

  // ----- Printing -----

  /** s.replace(/"/g, '""') */
  function DoubleQuotes(s: string): string {
    if s == [] then []
    else (if s[0] == '"' then ['"', '"'] else [s[0]]) + DoubleQuotes(s[1..])
  }

  function PrintCell(c: Cell): string {
    match c
    case Plain(t) => t
    case Quoted(t) => ['"'] + DoubleQuotes(t) + ['"']
  }

  /** cells.join(',') */
  function PrintRow(cells: seq<Cell>): string
    requires |cells| > 0
  {
    if |cells| == 1 then PrintCell(cells[0])
    else PrintCell(cells[0]) + [','] + PrintRow(cells[1..])
  }

  predicate Wide(rows: seq<seq<Cell>>) {
    forall i | 0 <= i < |rows| :: |rows[i]| >= 2
  }

  /** rows.join('\n') */
  function PrintRows(rows: seq<seq<Cell>>): string
    requires |rows| > 0 && Wide(rows)
  {
    if |rows| == 1 then PrintRow(rows[0])
    else PrintRow(rows[0]) + ['\n'] + PrintRows(rows[1..])
  }

  function Values(cells: seq<Cell>): (v: seq<string>)
    ensures |v| == |cells|
  {
    seq(|cells|, i requires 0 <= i < |cells| => cells[i].text)
  }

  function TableOf(rows: seq<seq<Cell>>): (t: Table)
    ensures |t| == |rows|
  {
    seq(|rows|, i requires 0 <= i < |rows| => Values(rows[i]))
  }

  // ----- Reading -----

  datatype Mode = FieldStart | Bare | InQuotes | AfterQuote

  /** One character at a time; None when the text is not CSV. */
  function Read(text: string, mode: Mode, field: string, row: seq<string>, table: Table): Option<Table>
    decreases |text|
  {
    if text == [] then
      if mode == InQuotes then None
      else if mode == FieldStart && row == [] && table != [] then Some(table)
      else Some(table + [row + [field]])
    else
      var c, rest := text[0], text[1..];
      if mode == InQuotes then
        if c == '"' then Read(rest, AfterQuote, field, row, table)
        else Read(rest, InQuotes, field + [c], row, table)
      else if c == ',' then Read(rest, FieldStart, [], row + [field], table)
      else if c == '\n' then Read(rest, FieldStart, [], [], table + [row + [field]])
      else if c == '\r' then
        if rest != [] && rest[0] == '\n' then Read(rest[1..], FieldStart, [], [], table + [row + [field]]) else None
      else if c == '"' then
        if mode == FieldStart then Read(rest, InQuotes, field, row, table)
        else if mode == AfterQuote then Read(rest, InQuotes, field + ['"'], row, table)
        else None
      else if mode == AfterQuote then None
      else Read(rest, Bare, field + [c], row, table)
  }

  function ReadTable(text: string): Option<Table> {
    Read(text, FieldStart, [], [], [])
  }

  // ----- Clean cells read back -----

  predicate Special(c: char) {
    c == ',' || c == '"' || c == '\r' || c == '\n'
  }

  predicate CleanText(s: string) {
    forall i | 0 <= i < |s| :: !Special(s[i])
  }

  predicate CleanCell(c: Cell) {
    c.Plain? ==> CleanText(c.text)
  }

  predicate CleanRow(cells: seq<Cell>) {
    forall i | 0 <= i < |cells| :: CleanCell(cells[i])
  }

  predicate CleanRows(rows: seq<seq<Cell>>) {
    forall i | 0 <= i < |rows| :: CleanRow(rows[i])
  }

  /** Reading a clean stretch just collects it. */
  lemma {:induction false} ReadClean(t: string, rest: string, mode: Mode, field: string, row: seq<string>, table: Table)
    requires CleanText(t) && (mode == Bare || mode == FieldStart)
    ensures Read(t + rest, mode, field, row, table) ==
            Read(rest, if t == [] then mode else Bare, field + t, row, table)
    decreases |t|
  {
    if t == [] {
      assert t + rest == rest && field + t == field;
    } else {
      assert !Special(t[0]);
      assert (t + rest)[1..] == t[1..] + rest;
      ReadClean(t[1..], rest, Bare, field + [t[0]], row, table);
      assert field + [t[0]] + t[1..] == field + t;
    }
  }

  /** Reading doubled quotes between quotes undoes the doubling. */
  lemma {:induction false} ReadDoubled(t: string, rest: string, field: string, row: seq<string>, table: Table)
    ensures Read(DoubleQuotes(t) + (['"'] + rest), InQuotes, field, row, table) ==
            Read(rest, AfterQuote, field + t, row, table)
    decreases |t|
  {
    var text := DoubleQuotes(t) + (['"'] + rest);
    if t == [] {
      assert text[1..] == rest && field + t == field;
    } else {
      var next := DoubleQuotes(t[1..]) + (['"'] + rest);
      ReadDoubled(t[1..], rest, field + [t[0]], row, table);
      assert field + [t[0]] + t[1..] == field + t;
      if t[0] == '"' {
        assert text == ['"', '"'] + next;
        assert text[1..] == ['"'] + next && text[1..][1..] == next;
      } else {
        assert text == [t[0]] + next;
        assert text[1..] == next;
      }
    }
  }

  /** What may follow a cell: nothing, a comma or a line break. */
  predicate Delimited(tail: string) {
    tail == [] || tail[0] == ',' || tail[0] == '\n'
  }

  /** The state after the cell before a delimiter: the field is complete, however it was written. */
  lemma ReadCell(c: Cell, tail: string, row: seq<string>, table: Table)
    requires CleanCell(c) && Delimited(tail) && (tail == [] ==> row != [])
    ensures Read(PrintCell(c) + tail, FieldStart, [], row, table) == Read(tail, AfterQuote, c.text, row, table)
  {
    assert [] + c.text == c.text;
    match c
    case Plain(t) => ReadClean(t, tail, FieldStart, [], row, table);
    case Quoted(t) => ReadQuoted(t, tail, row, table);
  }

  lemma ReadQuoted(t: string, tail: string, row: seq<string>, table: Table)
    ensures Read(PrintCell(Quoted(t)) + tail, FieldStart, [], row, table) == Read(tail, AfterQuote, [] + t, row, table)
  {
    var rest := DoubleQuotes(t) + (['"'] + tail);
    assert PrintCell(Quoted(t)) + tail == ['"'] + rest;
    ReadOpening(rest, row, table);
    ReadDoubled(t, tail, [], row, table);
  }

  lemma ReadOpening(rest: string, row: seq<string>, table: Table)
    ensures Read(['"'] + rest, FieldStart, [], row, table) == Read(rest, InQuotes, [], row, table)
  {
    assert (['"'] + rest)[1..] == rest;
  }

  lemma ReadComma(rest: string, field: string, row: seq<string>, table: Table)
    ensures Read([','] + rest, AfterQuote, field, row, table) == Read(rest, FieldStart, [], row + [field], table)
  {
    assert ([','] + rest)[1..] == rest;
  }

  lemma ReadLineBreak(rest: string, field: string, row: seq<string>, table: Table)
    ensures Read(['\n'] + rest, AfterQuote, field, row, table) ==
            Read(rest, FieldStart, [], [], table + [row + [field]])
  {
    assert (['\n'] + rest)[1..] == rest;
  }

  /** The first cell of a longer row is read and the rest remains. */
  lemma ReadFirstCell(cells: seq<Cell>, tail: string, row: seq<string>, table: Table)
    requires |cells| > 1 && CleanCell(cells[0])
    ensures Read(PrintRow(cells) + tail, FieldStart, [], row, table) ==
            Read(PrintRow(cells[1..]) + tail, FieldStart, [], row + [cells[0].text], table)
  {
    var rest := PrintRow(cells[1..]) + tail;
    SplitRow(cells, tail);
    ReadCell(cells[0], [','] + rest, row, table);
    ReadComma(rest, cells[0].text, row, table);
  }

  lemma SplitRow(cells: seq<Cell>, tail: string)
    requires |cells| > 1
    ensures PrintRow(cells) + tail == PrintCell(cells[0]) + ([','] + (PrintRow(cells[1..]) + tail))
  {
  }

  lemma SplitRows(rows: seq<seq<Cell>>)
    requires |rows| > 1 && Wide(rows)
    ensures PrintRows(rows) == PrintRow(rows[0]) + (['\n'] + PrintRows(rows[1..]))
  {
  }

  lemma ValuesCons(row: seq<string>, cells: seq<Cell>)
    requires |cells| > 0
    ensures row + [cells[0].text] + Values(cells[1..]) == row + Values(cells)
  {
  }

  lemma TableCons(table: Table, rows: seq<seq<Cell>>)
    requires |rows| > 0
    ensures table + [Values(rows[0])] + TableOf(rows[1..]) == table + TableOf(rows)
  {
  }

  /** A clean row before the end of the text, and one before a line break. */
  lemma {:induction false} ReadRowEnd(cells: seq<Cell>, row: seq<string>, table: Table)
    requires |cells| > 0 && CleanRow(cells) && |cells| + |row| >= 2
    ensures Read(PrintRow(cells), FieldStart, [], row, table) == Some(table + [row + Values(cells)])
    decreases |cells|
  {
    ValuesCons(row, cells);
    if |cells| == 1 {
      assert PrintCell(cells[0]) + [] == PrintRow(cells);
      ReadCell(cells[0], [], row, table);
      assert Values(cells) == [cells[0].text];
    } else {
      assert PrintRow(cells) + [] == PrintRow(cells) && PrintRow(cells[1..]) + [] == PrintRow(cells[1..]);
      ReadFirstCell(cells, [], row, table);
      ReadRowEnd(cells[1..], row + [cells[0].text], table);
    }
  }

  lemma {:induction false} ReadRowBreak(cells: seq<Cell>, rest: string, row: seq<string>, table: Table)
    requires |cells| > 0 && CleanRow(cells)
    ensures Read(PrintRow(cells) + (['\n'] + rest), FieldStart, [], row, table) ==
            Read(rest, FieldStart, [], [], table + [row + Values(cells)])
    decreases |cells|
  {
    var tail := ['\n'] + rest;
    ValuesCons(row, cells);
    if |cells| == 1 {
      ReadCell(cells[0], tail, row, table);
      ReadLineBreak(rest, cells[0].text, row, table);
      assert Values(cells) == [cells[0].text];
    } else {
      ReadFirstCell(cells, tail, row, table);
      ReadRowBreak(cells[1..], rest, row + [cells[0].text], table);
    }
  }

  lemma {:induction false} ReadCleanRows(rows: seq<seq<Cell>>, table: Table)
    requires |rows| > 0 && Wide(rows) && CleanRows(rows)
    ensures Read(PrintRows(rows), FieldStart, [], [], table) == Some(table + TableOf(rows))
    decreases |rows|
  {
    var first := Values(rows[0]);
    assert [] + first == first;
    TableCons(table, rows);
    if |rows| == 1 {
      ReadRowEnd(rows[0], [], table);
      assert TableOf(rows) == [first];
    } else {
      SplitRows(rows);
      ReadRowBreak(rows[0], PrintRows(rows[1..]), [], table);
      ReadCleanRows(rows[1..], table + [first]);
    }
  }

  // ----- Unclean cells do not -----

  /** t agrees with the rows and cells read so far and has v as the next cell. */
  predicate Continues(t: Table, table: Table, row: seq<string>, v: string) {
    && |t| > |table| && t[..|table|] == table
    && |t[|table|]| > |row| && t[|table|][..|row|] == row && t[|table|][|row|] == v
  }

  /** Reading never takes back a finished row, a finished cell or the beginning of the present one. */
  lemma {:induction false} ReadKeeps(text: string, mode: Mode, field: string, row: seq<string>, table: Table)
    ensures var r := Read(text, mode, field, row, table);
            r.Some? ==>
              || (r.value == table && row == [] && mode == FieldStart)
              || (|r.value| > |table| && |r.value[|table|]| > |row| && field <= r.value[|table|][|row|] &&
                  Continues(r.value, table, row, r.value[|table|][|row|]))
    decreases |text|
  {
    if text != [] {
      var c, rest := text[0], text[1..];
      if mode == InQuotes {
        ReadKeeps(rest, AfterQuote, field, row, table);
        ReadKeeps(rest, InQuotes, field + [c], row, table);
      } else if c == ',' {
        ReadKeeps(rest, FieldStart, [], row + [field], table);
        CellKept(Read(rest, FieldStart, [], row + [field], table), row, field, table);
      } else if c == '\n' {
        ReadKeeps(rest, FieldStart, [], [], table + [row + [field]]);
        RowKept(Read(rest, FieldStart, [], [], table + [row + [field]]), row, field, table);
      } else if c == '\r' {
        if rest != [] && rest[0] == '\n' {
          ReadKeeps(rest[1..], FieldStart, [], [], table + [row + [field]]);
          RowKept(Read(rest[1..], FieldStart, [], [], table + [row + [field]]), row, field, table);
        }
      } else if c == '"' {
        ReadKeeps(rest, InQuotes, field, row, table);
        ReadKeeps(rest, InQuotes, field + ['"'], row, table);
      } else {
        ReadKeeps(rest, Bare, field + [c], row, table);
      }
    }
  }

  lemma CellKept(r: Option<Table>, row: seq<string>, field: string, table: Table)
    requires r.Some? ==> |r.value| > |table| && |r.value[|table|]| > |row| + 1 &&
                         Continues(r.value, table, row + [field], r.value[|table|][|row| + 1])
    ensures r.Some? ==> Continues(r.value, table, row, field)
  {
    if r.Some? {
      var full := r.value[|table|];
      assert full[..|row| + 1] == row + [field];
      assert full[|row|] == full[..|row| + 1][|row|];
      assert full[..|row|] == full[..|row| + 1][..|row|];
    }
  }

  lemma RowKept(r: Option<Table>, row: seq<string>, field: string, table: Table)
    requires var done := table + [row + [field]];
             r.Some? ==> r.value == done || (|r.value| > |done| && r.value[..|done|] == done)
    ensures r.Some? ==> Continues(r.value, table, row, field)
  {
    if r.Some? {
      var done := table + [row + [field]];
      assert r.value[..|done|] == done;
      assert r.value[|table|] == done[|table|];
      assert r.value[..|table|] == done[..|table|];
    }
  }

  function Quotes(n: nat): (s: string)
    ensures |s| == n
  {
    seq(n, _ => '"')
  }

  /** A quoted field never has more leading quotes than half of those written. */
  lemma {:induction false} LeadingQuotes(n: nat, z: string, j: nat, row: seq<string>, table: Table, t: Table)
    requires z == [] || z[0] != '"'
    requires Read(Quotes(n) + z, InQuotes, Quotes(j), row, table) == Some(t)
    ensures |t| > |table| && |t[|table|]| > |row| && !(Quotes(j + n + 1) <= t[|table|][|row|])
    decreases n
  {
    var text := Quotes(n) + z;
    ReadKeeps(text, InQuotes, Quotes(j), row, table);
    if n == 0 {
      assert text == z;
      ReadKeeps(z[1..], InQuotes, Quotes(j) + [z[0]], row, table);
      assert t[|table|][|row|][j] == z[0];
    } else {
      assert text[1..] == Quotes(n - 1) + z;
      if n == 1 {
        assert text[1..] == z;
        AfterOneQuote(z, Quotes(j), row, table, t);
      } else {
        assert text[1..][1..] == Quotes(n - 2) + z;
        assert Quotes(j) + ['"'] == Quotes(j + 1);
        LeadingQuotes(n - 2, z, j + 1, row, table, t);
        assert Quotes(j + n) == Quotes(j + n + 1)[..j + n];
      }
    }
  }

  /** After a closing quote that is not doubled the field is over. */
  lemma AfterOneQuote(z: string, field: string, row: seq<string>, table: Table, t: Table)
    requires z == [] || z[0] != '"'
    requires Read(z, AfterQuote, field, row, table) == Some(t)
    ensures Continues(t, table, row, field)
  {
    if z == [] {
      assert t == table + [row + [field]];
    } else if z[0] == ',' {
      ReadKeeps(z[1..], FieldStart, [], row + [field], table);
      CellKept(Some(t), row, field, table);
    } else {
      var rest := if z[0] == '\n' then z[1..] else z[1..][1..];
      ReadKeeps(rest, FieldStart, [], [], table + [row + [field]]);
      RowKept(Some(t), row, field, table);
    }
  }

  function LeadCount(s: string): (n: nat)
    ensures n <= |s| && s == Quotes(n) + s[n..] && (s[n..] == [] || s[n..][0] != '"')
  {
    if s == [] || s[0] != '"' then 0 else 1 + LeadCount(s[1..])
  }

  /** An unquoted cell that starts with a quote does not come back. */
  lemma QuoteFirstLost(t: string, tail: string, row: seq<string>, table: Table, r: Table)
    requires t != [] && t[0] == '"' && Delimited(tail)
    requires Read(t + tail, FieldStart, [], row, table) == Some(r)
    ensures !Continues(r, table, row, t)
  {
    var k := LeadCount(t);
    var z := t[k..] + tail;
    assert (t + tail)[1..] == Quotes(k - 1) + z;
    assert Quotes(0) == [];
    LeadingQuotes(k - 1, z, 0, row, table, r);
    assert Quotes(k) <= t;
  }

  /** The first special character of an unclean text. */
  function FirstSpecial(t: string): (p: nat)
    requires !CleanText(t)
    ensures p < |t| && Special(t[p]) && CleanText(t[..p])
  {
    if Special(t[0]) then 0
    else
      var p := 1 + FirstSpecial(t[1..]);
      assert forall i | 0 <= i < p :: t[..p][i] == if i == 0 then t[0] else t[1..][..p - 1][i - 1];
      p
  }

  /** An unquoted cell with a special character later on comes back cut short, or not at all. */
  lemma SpecialCutsCell(t: string, tail: string, row: seq<string>, table: Table, r: Table)
    requires !CleanText(t) && t[0] != '"'
    requires Read(t + tail, FieldStart, [], row, table) == Some(r)
    ensures !Continues(r, table, row, t)
  {
    var p := FirstSpecial(t);
    var cut, rest := t[..p], t[p..] + tail;
    assert t + tail == cut + rest;
    ReadClean(cut, rest, FieldStart, [], row, table);
    assert [] + cut == cut && rest[0] == t[p];
    if rest[0] == ',' {
      ReadKeeps(rest[1..], FieldStart, [], row + [cut], table);
      CellKept(Some(r), row, cut, table);
    } else {
      assert rest[0] == '\n' || rest[0] == '\r';
      var next := if rest[0] == '\n' then rest[1..] else rest[1..][1..];
      ReadKeeps(next, FieldStart, [], [], table + [row + [cut]]);
      RowKept(Some(r), row, cut, table);
    }
  }

  lemma UncleanCellLost(c: Cell, tail: string, row: seq<string>, table: Table, r: Table)
    requires !CleanCell(c) && Delimited(tail)
    requires Read(PrintCell(c) + tail, FieldStart, [], row, table) == Some(r)
    ensures !Continues(r, table, row, c.text)
  {
    if c.text[0] == '"' {
      QuoteFirstLost(c.text, tail, row, table, r);
    } else {
      SpecialCutsCell(c.text, tail, row, table, r);
    }
  }

  lemma FirstValue(cells: seq<Cell>, row: seq<string>, table: Table, r: Table)
    requires |cells| > 0 && |r| > |table| && r[..|table|] == table && r[|table|] == row + Values(cells)
    ensures Continues(r, table, row, cells[0].text)
  {
  }

  lemma {:induction false} UncleanRowLost(cells: seq<Cell>, tail: string, row: seq<string>, table: Table, r: Table)
    requires |cells| > 0 && !CleanRow(cells) && (tail == [] || tail[0] == '\n')
    requires Read(PrintRow(cells) + tail, FieldStart, [], row, table) == Some(r)
    requires |r| > |table| && r[..|table|] == table
    ensures r[|table|] != row + Values(cells)
    decreases |cells|
  {
    if r[|table|] == row + Values(cells) {
      FirstValue(cells, row, table, r);
      if |cells| == 1 {
        UncleanCellLost(cells[0], tail, row, table, r);
      } else if CleanCell(cells[0]) {
        ReadFirstCell(cells, tail, row, table);
        ValuesCons(row, cells);
        UncleanRowLost(cells[1..], tail, row + [cells[0].text], table, r);
      } else {
        SplitRow(cells, tail);
        UncleanCellLost(cells[0], [','] + (PrintRow(cells[1..]) + tail), row, table, r);
      }
    }
  }

  lemma FirstRow(rows: seq<seq<Cell>>, table: Table)
    requires |rows| > 0
    ensures var r := table + TableOf(rows);
            r[..|table|] == table && r[|table|] == [] + Values(rows[0])
  {
    assert [] + Values(rows[0]) == Values(rows[0]);
  }

  lemma {:induction false} UncleanRowsLost(rows: seq<seq<Cell>>, table: Table)
    requires |rows| > 0 && Wide(rows) && !CleanRows(rows)
    ensures Read(PrintRows(rows), FieldStart, [], [], table) != Some(table + TableOf(rows))
    decreases |rows|
  {
    var r := table + TableOf(rows);
    if Read(PrintRows(rows), FieldStart, [], [], table) == Some(r) {
      FirstRow(rows, table);
      if |rows| == 1 {
        assert PrintRow(rows[0]) + [] == PrintRows(rows);
        UncleanRowLost(rows[0], [], [], table, r);
      } else {
        SplitRows(rows);
        if CleanRow(rows[0]) {
          ReadRowBreak(rows[0], PrintRows(rows[1..]), [], table);
          TableCons(table, rows);
          assert [] + Values(rows[0]) == Values(rows[0]);
          UncleanRowsLost(rows[1..], table + [Values(rows[0])]);
        } else {
          UncleanRowLost(rows[0], ['\n'] + PrintRows(rows[1..]), [], table, r);
        }
      }
    }
  }

  /** A printed table reads back to its values if and only if its unquoted cells are clean. */
  lemma RoundTripIff(rows: seq<seq<Cell>>)
    requires |rows| > 0 && Wide(rows)
    ensures ReadTable(PrintRows(rows)) == Some(TableOf(rows)) <==> CleanRows(rows)
  {
    assert [] + TableOf(rows) == TableOf(rows);
    if CleanRows(rows) {
      ReadCleanRows(rows, []);
    } else {
      UncleanRowsLost(rows, []);
    }
  }
}

/** Reports too large for a sheet become CSV parts: how cells are written, how lines are read back, and how
    rows are distributed over parts. */
module CsvExport {
  import opened Prelude

  // ---- formulas ------------------------------------------------------------------------------

  predicate StartsFormula(c: char) {
    c == '=' || c == '+' || c == '-' || c == '@'
  }

  /** Whether the first character a spreadsheet shows would start a formula. */
  predicate LooksLikeFormula(value: string) {
    if value == "" then false
    else if value[0] <= ' ' then LooksLikeFormula(value[1..])
    else StartsFormula(value[0])
  }

  function Neutralized(value: string): string {
    if LooksLikeFormula(value) then "'" + value else value
  }

  /** neutralizeSpreadsheetFormula. */
  method NeutralizeSpreadsheetFormula(value: string) returns (r: string)
    ensures r == Neutralized(value)
  {
    var firstVisible := 0;
    while firstVisible < |value| && value[firstVisible] <= ' '
      invariant 0 <= firstVisible <= |value| && LooksLikeFormula(value[firstVisible..]) == LooksLikeFormula(value)
    {
      assert value[firstVisible..][1..] == value[firstVisible + 1..];
      firstVisible := firstVisible + 1;
    }
    if firstVisible < |value| && StartsFormula(value[firstVisible]) { return "'" + value; }
    return value;
  }

  /** A neutralised text is no formula, and neutralising it again changes nothing. */
  lemma NeutralizedIsNoFormula(value: string)
    ensures !LooksLikeFormula(Neutralized(value)) && Neutralized(Neutralized(value)) == Neutralized(value)
  {
    if LooksLikeFormula(value) {
      assert ("'" + value)[0] == '\'';
    }
  }

  predicate FormulaAt(value: string, i: nat) {
    i < |value| && value[i] in "=+-@" && forall j | 0 <= j < i :: value[j] <= ' '
  }

  /** The first character above the space decides: a text is neutralised exactly when it is one of = + - @, and
      then by one apostrophe in front of it. */
  lemma {:induction false} NeutralizedExactly(value: string)
    ensures Neutralized(value) == value || Neutralized(value) == "'" + value
    ensures Neutralized(value) == "'" + value <==>
              exists i | 0 <= i < |value| :: FormulaAt(value, i)
  {
    FormulaExactly(value);
    assert |"'" + value| == |value| + 1;
  }

  lemma {:induction false} FormulaExactly(value: string)
    ensures LooksLikeFormula(value) <==>
              exists i | 0 <= i < |value| :: FormulaAt(value, i)
  {
    if value != "" {
      FormulaExactly(value[1..]);
      FormulaSigns(value[0]);
      if value[0] <= ' ' {
        if i :| 0 <= i < |value[1..]| && FormulaAt(value[1..], i) {
          assert forall j | 0 < j < i + 1 :: value[j] == value[1..][j - 1];
          assert FormulaAt(value, i + 1);
        }
        if i: int :| 0 <= i < |value| && FormulaAt(value, i) {
          assert FormulaAt(value[1..], i - 1);
        }
      } else if value[0] in "=+-@" {
        assert FormulaAt(value, 0);
      }
    }
  }

  lemma FormulaSigns(c: char)
    ensures StartsFormula(c) <==> c in "=+-@"
    ensures c in "=+-@" ==> c > ' '
  {
    var signs := "=+-@";
    assert signs[0] == '=' && signs[1] == '+' && signs[2] == '-' && signs[3] == '@';
  }

  // ---- cells and lines -----------------------------------------------------------------------

  /** A cell of a text column, or of a numeric one, which is written as it is. */
  datatype Cell = Text(text: string) | Number(digits: string)

  function Safe(cell: Cell): string {
    if cell.Number? then cell.digits else Neutralized(cell.text)
  }

  predicate NeedsQuotes(c: char) {
    c == '"' || c == ',' || c == '\r' || c == '\n'
  }

  function Doubled(s: string): string {
    if s == "" then "" else (if s[0] == '"' then "\"\"" else [s[0]]) + Doubled(s[1..])
  }

  predicate HasSpecial(s: string) {
    exists i | 0 <= i < |s| :: NeedsQuotes(s[i])
  }

  function Quoted(safe: string): string {
    if HasSpecial(safe) then "\"" + Doubled(safe) + "\"" else safe
  }

  function SafeCells(cells: seq<Cell>): (r: seq<string>)
    ensures |r| == |cells|
  {
    if cells == [] then [] else [Safe(cells[0])] + SafeCells(cells[1..])
  }

  function Line(cells: seq<string>): string {
    if cells == [] then ""
    else if |cells| == 1 then Quoted(cells[0])
    else Quoted(cells[0]) + "," + Line(cells[1..])
  }

  /** A cell is written bare, or quoted with its quotes doubled exactly when it holds a quote, a comma or a line
      break; only text cells are neutralised. */
  lemma QuotedExactly(safe: string)
    ensures (Quoted(safe) == safe) <==> forall i | 0 <= i < |safe| :: safe[i] !in {'"', ',', '\r', '\n'}
    ensures Quoted(safe) != safe ==> Quoted(safe) == "\"" + Doubled(safe) + "\""
    ensures Safe(Number(safe)) == safe && Safe(Text(safe)) == Neutralized(safe)
  {
    DoublingNeverShrinks(safe);
  }

  lemma {:induction false} DoublingNeverShrinks(s: string)
    ensures |Doubled(s)| >= |s|
  {
    if s != "" {
      DoublingNeverShrinks(s[1..]);
    }
  }

  // ---- parseDelimitedLine --------------------------------------------------------------------

  /** What remains of a line, inside quotes or not, with the cell read so far. */
  function ParseFrom(s: string, delimiter: char, quoted: bool, cell: string): Option<seq<string>>
    decreases |s|
  {
    if s == "" then if quoted then None else Some([cell])
    else if s[0] == '"' then
      if quoted && |s| > 1 && s[1] == '"' then ParseFrom(s[2..], delimiter, quoted, cell + "\"")
      else ParseFrom(s[1..], delimiter, !quoted, cell)
    else if s[0] == delimiter && !quoted then
      var rest := ParseFrom(s[1..], delimiter, false, "");
      if rest.None? then None else Some([cell] + rest.value)
    else ParseFrom(s[1..], delimiter, quoted, cell + [s[0]])
  }

  function Parse(line: string, delimiter: char): Option<seq<string>> {
    ParseFrom(line, delimiter, false, "")
  }

  function Prepend(cells: seq<string>, rest: Option<seq<string>>): Option<seq<string>> {
    if rest.None? then None else Some(cells + rest.value)
  }

  method ParseDelimitedLine(line: string, delimiter: char) returns (r: Option<seq<string>>)
    ensures r == Parse(line, delimiter)
  {
    var cells: seq<string> := [];
    var cell := "";
    var quoted := false;
    var index := 0;
    assert line[0..] == line;
    PrependNothing(ParseFrom(line, delimiter, false, ""));
    while index < |line|
      invariant 0 <= index <= |line|
      invariant Parse(line, delimiter) == Prepend(cells, ParseFrom(line[index..], delimiter, quoted, cell))
    {
      var character := line[index];
      assert line[index..][1..] == line[index + 1..];
      if character == '"' {
        if quoted && index + 1 < |line| && line[index + 1] == '"' {
          assert line[index..][2..] == line[index + 2..];
          cell := cell + "\"";
          index := index + 1;
        } else {
          quoted := !quoted;
        }
      } else if character == delimiter && !quoted {
        PrependTwice(cells, cell, ParseFrom(line[index + 1..], delimiter, false, ""));
        cells := cells + [cell];
        cell := "";
      } else {
        cell := cell + [character];
      }
      index := index + 1;
    }
    if quoted { return None; }
    return Some(cells + [cell]);
  }

  lemma PrependNothing(rest: Option<seq<string>>)
    ensures Prepend([], rest) == rest
  {
    if rest.Some? {
      assert [] + rest.value == rest.value;
    }
  }

  lemma PrependTwice(cells: seq<string>, cell: string, rest: Option<seq<string>>)
    ensures Prepend(cells, Prepend([cell], rest)) == Prepend(cells + [cell], rest)
  {
    if rest.Some? {
      assert cells + ([cell] + rest.value) == (cells + [cell]) + rest.value;
    }
  }

  // ---- reading back what was written ---------------------------------------------------------

  lemma Plainer(s: string)
    requires s != "" && !HasSpecial(s)
    ensures !NeedsQuotes(s[0]) && !HasSpecial(s[1..])
  {
    forall i | 0 <= i < |s[1..]| ensures !NeedsQuotes(s[1..][i]) {
      assert s[1..][i] == s[i + 1];
    }
  }

  lemma {:induction false} ReadsPlain(s: string, rest: string, cell: string)
    requires !HasSpecial(s)
    ensures ParseFrom(s + rest, ',', false, cell) == ParseFrom(rest, ',', false, cell + s)
    decreases |s|
  {
    if s == "" {
      assert s + rest == rest && cell + s == cell;
    } else {
      Plainer(s);
      ReadsPlain(s[1..], rest, cell + [s[0]]);
      assert (s + rest)[1..] == s[1..] + rest && cell + [s[0]] + s[1..] == cell + s;
    }
  }

  lemma {:induction false} ReadsDoubled(s: string, rest: string, cell: string)
    requires rest == "" || rest[0] != '"'
    ensures ParseFrom(Doubled(s) + ("\"" + rest), ',', true, cell) == ParseFrom(rest, ',', false, cell + s)
    decreases |s|
  {
    var tail := "\"" + rest;
    assert tail[1..] == rest;
    if s == "" {
      assert Doubled(s) + tail == tail && cell + s == cell;
    } else {
      ReadsDoubled(s[1..], rest, cell + [s[0]]);
      assert cell + [s[0]] + s[1..] == cell + s;
      var all := Doubled(s) + tail;
      if s[0] == '"' {
        assert all[2..] == Doubled(s[1..]) + tail;
        assert cell + "\"" == cell + [s[0]];
      } else {
        assert all[1..] == Doubled(s[1..]) + tail;
      }
    }
  }

  lemma ReadsQuoted(safe: string, rest: string)
    requires rest == "" || rest[0] == ','
    ensures ParseFrom("\"" + Doubled(safe) + "\"" + rest, ',', false, "") == ParseFrom(rest, ',', false, safe)
  {
    hide Doubled;
    ReadsDoubled(safe, rest, "");
    assert "" + safe == safe;
    var all := "\"" + Doubled(safe) + "\"" + rest;
    assert all[0] == '"' && all[1..] == Doubled(safe) + ("\"" + rest);
  }

  lemma ReadsCell(safe: string, rest: string)
    requires rest == "" || rest[0] == ','
    ensures ParseFrom(Quoted(safe) + rest, ',', false, "") == ParseFrom(rest, ',', false, safe)
  {
    hide NeedsQuotes;
    assert "" + safe == safe;
    if HasSpecial(safe) {
      ReadsQuoted(safe, rest);
    } else {
      ReadsPlain(safe, rest, "");
    }
  }

  /** Reading a written line gives back its cells. */
  lemma {:induction false} LineRoundTrip(cells: seq<string>)
    requires cells != []
    ensures Parse(Line(cells), ',') == Some(cells)
  {
    if |cells| == 1 {
      ReadsCell(cells[0], "");
      assert Quoted(cells[0]) + "" == Quoted(cells[0]);
      assert cells == [cells[0]];
    } else {
      var rest := "," + Line(cells[1..]);
      ReadsCell(cells[0], rest);
      LineRoundTrip(cells[1..]);
      assert Line(cells) == Quoted(cells[0]) + rest && rest[1..] == Line(cells[1..]);
      assert [cells[0]] + cells[1..] == cells;
    }
  }

  // ---- a whole file --------------------------------------------------------------------------

  /** The records of a text by section 2 of RFC 4180: they end at a line break outside quotes. */
  function Records(s: string, quoted: bool, record: string): seq<string>
    decreases |s|
  {
    if s == "" then if record == "" then [] else [record]
    else if !quoted && |s| > 1 && s[0] == '\r' && s[1] == '\n' then [record] + Records(s[2..], false, "")
    else Records(s[1..], if s[0] == '"' then !quoted else quoted, record + [s[0]])
  }

  /** No line break outside quotes, and every quote closed. */
  predicate Closed(s: string, quoted: bool) {
    if s == "" then !quoted
    else if s[0] == '"' then Closed(s[1..], !quoted)
    else (quoted || s[0] != '\r') && Closed(s[1..], quoted)
  }

  lemma {:induction false} ClosedAppends(a: string, b: string, quoted: bool)
    requires Closed(a, quoted) && Closed(b, false)
    ensures Closed(a + b, quoted)
    decreases |a|
  {
    if a == "" {
      assert a + b == b;
    } else {
      assert (a + b)[1..] == a[1..] + b;
      ClosedAppends(a[1..], b, if a[0] == '"' then !quoted else quoted);
    }
  }

  lemma {:induction false} DoubledIsClosed(s: string)
    ensures Closed(Doubled(s) + "\"", true)
  {
    if s == "" {
      assert Doubled(s) + "\"" == "\"";
    } else {
      DoubledIsClosed(s[1..]);
      var all := Doubled(s) + "\"";
      if s[0] == '"' {
        assert all[1..][1..] == Doubled(s[1..]) + "\"";
      } else {
        assert all[1..] == Doubled(s[1..]) + "\"";
      }
    }
  }

  lemma {:induction false} PlainIsClosed(s: string)
    requires !HasSpecial(s)
    ensures Closed(s, false)
  {
    if s != "" {
      Plainer(s);
      PlainIsClosed(s[1..]);
    }
  }

  lemma QuotedIsClosed(safe: string)
    ensures Closed(Quoted(safe), false)
  {
    if HasSpecial(safe) {
      DoubledIsClosed(safe);
      assert Quoted(safe)[1..] == Doubled(safe) + "\"";
    } else {
      PlainIsClosed(safe);
    }
  }

  lemma {:induction false} LineIsClosed(cells: seq<string>)
    requires cells != []
    ensures Closed(Line(cells), false)
  {
    QuotedIsClosed(cells[0]);
    if |cells| > 1 {
      LineIsClosed(cells[1..]);
      var rest := "," + Line(cells[1..]);
      assert rest[1..] == Line(cells[1..]);
      ClosedAppends(Quoted(cells[0]), rest, false);
      assert Line(cells) == Quoted(cells[0]) + rest;
    }
  }

  lemma {:induction false} RecordEnds(line: string, rest: string, quoted: bool, record: string)
    requires Closed(line, quoted)
    ensures Records(line + ("\r\n" + rest), quoted, record) == [record + line] + Records(rest, false, "")
    decreases |line|
  {
    var all := line + ("\r\n" + rest);
    if line == "" {
      assert all[2..] == rest && record + line == record;
    } else {
      assert all[1..] == line[1..] + ("\r\n" + rest);
      RecordEnds(line[1..], rest, if line[0] == '"' then !quoted else quoted, record + [line[0]]);
      assert record + [line[0]] + line[1..] == record + line;
    }
  }

  type Row = r: seq<string> | |r| >= 1 witness [""]

  /** One line for each row. */
  function Body(rows: seq<Row>): string {
    if rows == [] then "" else Line(rows[0]) + ("\r\n" + Body(rows[1..]))
  }

  function ParseAll(records: seq<string>): seq<Option<seq<string>>> {
    if records == [] then [] else [Parse(records[0], ',')] + ParseAll(records[1..])
  }

  function Present(rows: seq<Row>): seq<Option<seq<string>>> {
    if rows == [] then [] else [Some(rows[0])] + Present(rows[1..])
  }

  /** Splitting a part's text into records and reading each gives back its rows, whatever quotes, commas and
      line breaks their cells hold. */
  lemma {:induction false} BodyRoundTrip(rows: seq<Row>)
    ensures ParseAll(Records(Body(rows), false, "")) == Present(rows)
  {
    if rows != [] {
      LineIsClosed(rows[0]);
      RecordEnds(Line(rows[0]), Body(rows[1..]), false, "");
      assert "" + Line(rows[0]) == Line(rows[0]);
      LineRoundTrip(rows[0]);
      BodyRoundTrip(rows[1..]);
      var rest := Records(Body(rows[1..]), false, "");
      assert ([Line(rows[0])] + rest)[1..] == rest;
    }
  }

  // ---- parts ---------------------------------------------------------------------------------

  datatype Key = Key(marketplace: string, period: string)

  /** What partition looks at, and the row's cells. */
  datatype Source = Source(marketplace: Option<string>, month: Option<string>, period: Option<string>,
                           requestedDate: Option<string>, cells: seq<Cell>)

  predicate IsDigit(c: char) {
    '0' <= c <= '9'
  }

  predicate IsPeriod(s: string) {
    && |s| >= 4 && IsDigit(s[0]) && IsDigit(s[1]) && IsDigit(s[2]) && IsDigit(s[3])
    && (|s| == 4
        || (|s| == 7 && s[4] == '-' && IsDigit(s[6]) && (IsDigit(s[5]) || (s[5] == 'Q' && '1' <= s[6] <= '4'))))
  }

  function Partition(row: Source): Key {
    var marketplace := if row.marketplace.Some? && row.marketplace.value != "" then row.marketplace.value else "all";
    var candidate :=
      if row.month.Some? then row.month.value
      else if row.period.Some? then row.period.value
      else if row.requestedDate.Some? then
        (if |row.requestedDate.value| > 7 then row.requestedDate.value[..7] else row.requestedDate.value)
      else "undated";
    Key(marketplace, if IsPeriod(candidate) then candidate else "undated")
  }

  /** The four digits of a year, alone or with a month or a quarter. */
  predicate YearMonthOrQuarter(s: string) {
    && |s| in {4, 7} && (forall i | 0 <= i < 4 :: s[i] in "0123456789")
    && (|s| == 7 ==>
          s[4] == '-' && if s[5] == 'Q' then s[6] in "1234" else s[5] in "0123456789" && s[6] in "0123456789")
  }

  function FirstSeven(s: string): string {
    if |s| <= 7 then s else s[..7]
  }

  lemma DigitsAre(c: char)
    ensures IsDigit(c) <==> c in "0123456789"
    ensures '1' <= c <= '4' <==> c in "1234"
  {
    var d := "0123456789";
    assert d[0] == '0' && d[1] == '1' && d[2] == '2' && d[3] == '3' && d[4] == '4';
    assert d[5] == '5' && d[6] == '6' && d[7] == '7' && d[8] == '8' && d[9] == '9';
    var q := "1234";
    assert q[0] == '1' && q[1] == '2' && q[2] == '3' && q[3] == '4';
  }

  lemma PeriodExactly(s: string)
    ensures IsPeriod(s) <==> YearMonthOrQuarter(s)
  {
    forall i | 0 <= i < |s| ensures IsDigit(s[i]) <==> s[i] in "0123456789" { DigitsAre(s[i]); }
    forall i | 0 <= i < |s| ensures '1' <= s[i] <= '4' <==> s[i] in "1234" { DigitsAre(s[i]); }
  }

  /** Which part a row belongs to: that of its marketplace, and of its month, otherwise its period, otherwise the
      month of its requested date; whatever is no year, month or quarter is undated. */
  lemma PartitionExactly(row: Source)
    ensures var key := Partition(row);
            && key.marketplace == (if row.marketplace.None? || row.marketplace == Some("") then "all"
                                   else row.marketplace.value)
            && (key.period == "undated" || YearMonthOrQuarter(key.period))
            && (row.month.Some? && YearMonthOrQuarter(row.month.value) ==> key.period == row.month.value)
            && (row.month.Some? && !YearMonthOrQuarter(row.month.value) ==> key.period == "undated")
            && (row.month.None? && row.period.Some? ==>
                  key.period == if YearMonthOrQuarter(row.period.value) then row.period.value else "undated")
            && (row.month.None? && row.period.None? && row.requestedDate.Some? ==>
                  var day := FirstSeven(row.requestedDate.value);
                  key.period == if YearMonthOrQuarter(day) then day else "undated")
            && (row.month.None? && row.period.None? && row.requestedDate.None? ==> key.period == "undated")
  {
    hide IsPeriod, YearMonthOrQuarter;
    if row.month.Some? { PeriodExactly(row.month.value); }
    if row.period.Some? { PeriodExactly(row.period.value); }
    if row.requestedDate.Some? { PeriodExactly(FirstSeven(row.requestedDate.value)); }
  }

  const NO_KEY := Key("all", "undated")

  /** A part and the text of its file. */
  datatype Part = Part(key: Key, number: nat, rows: seq<Source>, text: string)

  const BYTE_ORDER_MARK: char := '\U{FEFF}'

  /** The neutralised headers. */
  function HeaderRow(headers: seq<string>): (r: seq<string>)
    ensures |r| == |headers|
  {
    if headers == [] then [] else [Neutralized(headers[0])] + HeaderRow(headers[1..])
  }

  function Header(headers: seq<string>): string {
    [BYTE_ORDER_MARK] + (Line(HeaderRow(headers)) + "\r\n")
  }

  function RowText(row: Source): string {
    Line(SafeCells(row.cells)) + "\r\n"
  }

  function RowsText(rows: seq<Source>): string {
    if rows == [] then "" else RowsText(rows[..|rows| - 1]) + RowText(rows[|rows| - 1])
  }

  /** A part's file is its header line and its rows. */
  predicate TextOk(part: Part, headers: seq<string>) {
    part.text == Header(headers) + RowsText(part.rows)
  }

  predicate TextsOk(parts: seq<Part>, headers: seq<string>) {
    forall p | p in parts :: TextOk(p, headers)
  }

  function AllRows(parts: seq<Part>): seq<Source> {
    if parts == [] then [] else AllRows(parts[..|parts| - 1]) + parts[|parts| - 1].rows
  }

  function Numbered(parts: seq<Part>, key: Key): nat {
    if parts == [] then 0
    else Numbered(parts[..|parts| - 1], key) + (if parts[|parts| - 1].key == key then 1 else 0)
  }

  function AtLeastOne(rowsPerPart: int): nat {
    if rowsPerPart < 1 then 1 else rowsPerPart
  }

  predicate PartOk(part: Part, rowsPerPart: int) {
    1 <= |part.rows| <= AtLeastOne(rowsPerPart) && forall row | row in part.rows :: Partition(row) == part.key
  }

  /** Every part holds one key and at most rowsPerPart rows, the parts of a key are numbered from one, and a
      part ends only when it is full or the key changes. */
  predicate WellParted(parts: seq<Part>, rowsPerPart: int) {
    if parts == [] then true
    else
      var init, last := parts[..|parts| - 1], parts[|parts| - 1];
      && WellParted(init, rowsPerPart) && PartOk(last, rowsPerPart) && last.number == Numbered(init, last.key) + 1
      && (init != [] && init[|init| - 1].key == last.key ==> |init[|init| - 1].rows| == AtLeastOne(rowsPerPart))
  }

  predicate CountsParts(counts: map<Key, nat>, parts: seq<Part>)
  {
    && (forall p | p in parts :: p.key in counts)
    && forall k | k in counts :: counts[k] == Numbered(parts, k)
  }

  lemma {:induction false} NoneNumbered(parts: seq<Part>, key: Key)
    requires forall p | p in parts :: p.key != key
    ensures Numbered(parts, key) == 0
  {
    if parts != [] {
      NoneNumbered(parts[..|parts| - 1], key);
    }
  }

  /** A new part for the row, after the part before it was finished. */
  method StartPart(before: seq<Part>, counts: map<Key, nat>, headers: seq<string>, row: Source, rowsPerPart: int)
    returns (part: Part, counts': map<Key, nat>)
    requires WellParted(before, rowsPerPart) && CountsParts(counts, before)
    requires before != [] ==>
               |before[|before| - 1].rows| >= rowsPerPart || before[|before| - 1].key != Partition(row)
    ensures WellParted(before + [part], rowsPerPart) && CountsParts(counts', before + [part])
    ensures part.rows == [row] && TextOk(part, headers)
  {
    hide Partition, WellParted, CountsParts, Header, RowText;
    var target := Partition(row);
    var number := (if target in counts then counts[target] else 0) + 1;
    NumberOf(before, counts, target);
    part := Part(target, number, [row], Header(headers) + RowText(row));
    assert RowsText([row]) == RowText(row) by { assert [row][..0] == [] && "" + RowText(row) == RowText(row); }
    counts' := counts[target := number];
    AddsCount(before, counts, part);
    AddsPart(before, part, rowsPerPart);
  }

  lemma NumberOf(parts: seq<Part>, counts: map<Key, nat>, key: Key)
    requires CountsParts(counts, parts)
    ensures Numbered(parts, key) == if key in counts then counts[key] else 0
  {
    if key !in counts { NoneNumbered(parts, key); }
  }

  lemma AddsCount(parts: seq<Part>, counts: map<Key, nat>, part: Part)
    requires CountsParts(counts, parts) && part.number == Numbered(parts, part.key) + 1
    ensures CountsParts(counts[part.key := part.number], parts + [part])
  {
    var more, counts' := parts + [part], counts[part.key := part.number];
    assert more[..|parts|] == parts;
    forall p | p in more ensures p.key in counts' {
      assert p == part || p in parts;
    }
  }

  lemma AddsPart(before: seq<Part>, part: Part, rowsPerPart: int)
    requires WellParted(before, rowsPerPart) && part.number == Numbered(before, part.key) + 1
    requires |part.rows| == 1 && Partition(part.rows[0]) == part.key
    requires before != [] ==> |before[|before| - 1].rows| >= rowsPerPart || before[|before| - 1].key != part.key
    ensures WellParted(before + [part], rowsPerPart)
  {
    hide Partition, Numbered;
    var more := before + [part];
    assert more[..|more| - 1] == before && more[|more| - 1] == part;
    if before != [] { LastPartOk(before, rowsPerPart); }
  }

  lemma LastPartOk(parts: seq<Part>, rowsPerPart: int)
    requires parts != [] && WellParted(parts, rowsPerPart)
    ensures PartOk(parts[|parts| - 1], rowsPerPart)
  {
  }

  /** The part with one more row. */
  function Grown(part: Part, row: Source): Part {
    part.(rows := part.rows + [row], text := part.text + RowText(row))
  }

  lemma GrowsText(part: Part, headers: seq<string>, row: Source)
    requires TextOk(part, headers)
    ensures TextOk(Grown(part, row), headers)
  {
    hide Header, RowText;
    assert (part.rows + [row])[..|part.rows|] == part.rows;
    assert part.text + RowText(row) == Header(headers) + (RowsText(part.rows) + RowText(row));
  }

  lemma GrowsPart(finished: seq<Part>, part: Part, counts: map<Key, nat>, row: Source, rowsPerPart: int)
    requires WellParted(finished + [part], rowsPerPart) && |part.rows| < rowsPerPart && Partition(row) == part.key
    requires CountsParts(counts, finished + [part])
    ensures WellParted(finished + [Grown(part, row)], rowsPerPart) && CountsParts(counts, finished + [Grown(part, row)])
  {
    hide RowText;
    var more := finished + [Grown(part, row)];
    assert (finished + [part])[..|finished|] == finished && more[..|finished|] == finished;
    forall k ensures Numbered(more, k) == Numbered(finished + [part], k) { }
    assert forall p | p in more :: p.key == part.key || p in finished;
    assert forall p | p in finished :: p in finished + [part];
    assert part in finished + [part];
  }

  // ---- main result ---------------------------------------------------------------------------

  predicate HasColumns(rows: seq<Source>) {
    forall i | 0 <= i < |rows| :: rows[i].cells != []
  }

  predicate PartsHaveColumns(parts: seq<Part>) {
    forall p | 0 <= p < |parts| :: HasColumns(parts[p].rows)
  }

  /** The formula-neutralised rows. */
  function SafeRows(rows: seq<Source>): seq<Row>
    requires HasColumns(rows)
  {
    if rows == [] then [] else [SafeCells(rows[0].cells)] + SafeRows(rows[1..])
  }

  /** What a reader gets from the text of a file: it drops the byte order mark, splits the rest into records and
      skips the header. */
  function ReadFile(text: string): seq<Option<seq<string>>> {
    var data := if text != "" && text[0] == BYTE_ORDER_MARK then text[1..] else text;
    var records := ParseAll(Records(data, false, ""));
    if records == [] then [] else records[1..]
  }

  /** The records of all parts, part by part. */
  function ReadParts(parts: seq<Part>): seq<Option<seq<string>>> {
    if parts == [] then [] else ReadParts(parts[..|parts| - 1]) + ReadFile(parts[|parts| - 1].text)
  }

  lemma {:induction false} BodyAppends(a: seq<Row>, b: seq<Row>)
    ensures Body(a + b) == Body(a) + Body(b)
  {
    hide Line;
    if a == [] {
      assert a + b == b;
    } else {
      BodyAppends(a[1..], b);
      assert (a + b)[1..] == a[1..] + b;
      Associative("\r\n", Body(a[1..]), Body(b));
      Associative(Line(a[0]), "\r\n" + Body(a[1..]), Body(b));
    }
  }

  lemma {:induction false} SafeRowsAppend(a: seq<Source>, b: seq<Source>)
    requires HasColumns(a) && HasColumns(b)
    ensures HasColumns(a + b) && SafeRows(a + b) == SafeRows(a) + SafeRows(b)
  {
    if a == [] {
      assert a + b == b;
    } else {
      SafeRowsAppend(a[1..], b);
      assert (a + b)[1..] == a[1..] + b;
      Associative([SafeCells(a[0].cells)], SafeRows(a[1..]), SafeRows(b));
    }
  }

  lemma {:induction false} PresentAppends(a: seq<Row>, b: seq<Row>)
    ensures Present(a + b) == Present(a) + Present(b)
  {
    if a == [] {
      assert a + b == b;
    } else {
      PresentAppends(a[1..], b);
      assert (a + b)[1..] == a[1..] + b;
      Associative([Some(a[0])], Present(a[1..]), Present(b));
    }
  }

  /** The rows of a part were written line by line. */
  lemma {:induction false} RowsTextIsBody(rows: seq<Source>)
    requires HasColumns(rows)
    ensures RowsText(rows) == Body(SafeRows(rows))
  {
    hide Line;
    if rows != [] {
      var init, last := rows[..|rows| - 1], rows[|rows| - 1];
      RowsTextIsBody(init);
      SafeRowsAppend(init, [last]);
      assert init + [last] == rows;
      OneLine(last);
      BodyAppends(SafeRows(init), SafeRows([last]));
    }
  }

  lemma OneLine(row: Source)
    requires row.cells != []
    ensures Body(SafeRows([row])) == RowText(row)
  {
    hide Line;
    var cells: Row := SafeCells(row.cells);
    assert [row][1..] == [] && SafeRows([]) == [];
    assert SafeRows([row]) == [cells] && [cells][1..] == [];
    assert Body([cells]) == Line(cells) + ("\r\n" + Body([cells][1..]));
    assert Body([cells][1..]) == "" && "\r\n" + "" == "\r\n";
  }

  lemma BodyOfMore(first: Row, rows: seq<Row>)
    ensures Body([first] + rows) == Line(first) + ("\r\n" + Body(rows))
    ensures Present([first] + rows) == [Some(first)] + Present(rows)
  {
    hide Line;
    assert ([first] + rows)[1..] == rows;
  }

  lemma DataOfPart(part: Part, headers: seq<string>, first: Row)
    requires headers != [] && first == HeaderRow(headers) && HasColumns(part.rows) && TextOk(part, headers)
    ensures part.text != "" && part.text[0] == '\U{FEFF}' && part.text[1..] == Body([first] + SafeRows(part.rows))
  {
    hide Line, RowsText, SafeRows, Body;
    RowsTextIsBody(part.rows);
    BodyOfMore(first, SafeRows(part.rows));
    var header := Line(first) + "\r\n";
    assert ([BYTE_ORDER_MARK] + header)[1..] == header;
    Associative(Line(first), "\r\n", Body(SafeRows(part.rows)));
    assert part.text == [BYTE_ORDER_MARK] + header + Body(SafeRows(part.rows));
    Associative([BYTE_ORDER_MARK], header, Body(SafeRows(part.rows)));
  }

  /** Reading a part's file gives back its rows, whatever its headers and cells hold. */
  lemma PartRoundTrip(part: Part, headers: seq<string>)
    requires headers != [] && HasColumns(part.rows) && TextOk(part, headers)
    ensures ReadFile(part.text) == Present(SafeRows(part.rows))
  {
    hide Line, Records, ParseAll, SafeRows, Present, Body, TextOk;
    var first: Row := HeaderRow(headers);
    var rows := SafeRows(part.rows);
    DataOfPart(part, headers, first);
    BodyRoundTrip([first] + rows);
    BodyOfMore(first, rows);
    assert ([Some(first)] + Present(rows))[1..] == Present(rows);
  }

  /** Reading the files of all parts in order gives back exactly the neutralised source rows in source order. */
  lemma {:induction false} PartsRoundTrip(parts: seq<Part>, headers: seq<string>)
    requires headers != [] && PartsHaveColumns(parts) && TextsOk(parts, headers)
    ensures HasColumns(AllRows(parts)) && ReadParts(parts) == Present(SafeRows(AllRows(parts)))
  {
    hide ReadFile, TextOk;
    if parts != [] {
      var init, last := parts[..|parts| - 1], parts[|parts| - 1];
      PartsRoundTrip(init, headers);
      PartRoundTrip(last, headers);
      SafeRowsAppend(AllRows(init), last.rows);
      PresentAppends(SafeRows(AllRows(init)), SafeRows(last.rows));
    }
  }

  lemma {:induction false} PartsShareColumns(parts: seq<Part>)
    requires HasColumns(AllRows(parts))
    ensures PartsHaveColumns(parts)
  {
    if parts != [] {
      var init, last := parts[..|parts| - 1], parts[|parts| - 1];
      forall i | 0 <= i < |AllRows(init)| ensures AllRows(init)[i].cells != [] {
        assert AllRows(parts)[i] == AllRows(init)[i];
      }
      forall i | 0 <= i < |last.rows| ensures last.rows[i].cells != [] {
        assert AllRows(parts)[|AllRows(init)| + i] == last.rows[i];
      }
      PartsShareColumns(init);
    }
  }

  /** writeCsvParts: the rows, in order, over well-formed parts; an empty section still gets one part with its
      header. A count that does not match the declared one fails the export. Whoever reads the files that were
      written gets back exactly the neutralised source rows. */
  method WriteCsvParts(headers: seq<string>, rows: seq<Source>, declared: nat, rowsPerPart: int)
    returns (r: Result<seq<Part>, string>)
    ensures r.Ok? <==> |rows| == declared
    ensures r.Ok? ==> AllRows(r.value) == rows && TextsOk(r.value, headers)
    ensures r.Ok? ==>
              if rows == [] then r.value == [Part(NO_KEY, 1, [], Header(headers))] else WellParted(r.value, rowsPerPart)
    ensures r.Ok? && headers != [] && HasColumns(rows) ==> ReadParts(r.value) == Present(SafeRows(rows))
  {
    hide WellParted, CountsParts, Partition, ReadParts, SafeRows, Header, TextOk;
    if rows == [] {
      if declared != 0 { return Err("EXPORT_ROW_COUNT_MISMATCH"); }
      r := Ok([Part(NO_KEY, 1, [], Header(headers))]);
      EmptyPart(headers);
      if headers != [] { PartsRoundTrip(r.value, headers); }
      return;
    }
    var finished: seq<Part> := [];
    var current, partitionParts := StartPart([], map[], headers, rows[0], rowsPerPart) by { NothingYet(rowsPerPart); }
    assert [] + [current] == [current];
    for n := 1 to |rows|
      invariant WellParted(finished + [current], rowsPerPart) && CountsParts(partitionParts, finished + [current])
      invariant AllRows(finished) + current.rows == rows[..n]
      invariant TextsOk(finished, headers) && TextOk(current, headers)
    {
      assert rows[..n + 1] == rows[..n] + [rows[n]];
      if |current.rows| >= rowsPerPart || current.key != Partition(rows[n]) {
        assert (finished + [current])[..|finished|] == finished;
        finished := finished + [current];
        current, partitionParts := StartPart(finished, partitionParts, headers, rows[n], rowsPerPart);
      } else {
        GrowsPart(finished, current, partitionParts, rows[n], rowsPerPart);
        GrowsText(current, headers, rows[n]);
        current := Grown(current, rows[n]);
      }
    }
    assert rows[..|rows|] == rows;
    assert (finished + [current])[..|finished|] == finished;
    finished := finished + [current];
    if |rows| != declared { return Err("EXPORT_ROW_COUNT_MISMATCH"); }
    if headers != [] && HasColumns(rows) {
      PartsShareColumns(finished);
      PartsRoundTrip(finished, headers);
    }
    return Ok(finished);
  }

  lemma EmptyPart(headers: seq<string>)
    ensures var parts := [Part(NO_KEY, 1, [], Header(headers))];
            AllRows(parts) == [] && TextsOk(parts, headers) && PartsHaveColumns(parts)
  {
    hide Header;
    var part := Part(NO_KEY, 1, [], Header(headers));
    assert [part][..0] == [] && AllRows([part][..0]) == [];
    assert Header(headers) + "" == Header(headers);
    assert TextOk(part, headers);
  }

  lemma NothingYet(rowsPerPart: int)
    ensures WellParted([], rowsPerPart) && CountsParts(map[], [])
  {
  }
}

/** The browser's CSV export: each value escaped for a comma-separated
    field, one header line of the twelve column names, then one line per bet,
    lines joined by a line feed. A reader for the same dialect is defined
    alongside, and reading an export back gives exactly the header and the
    bets' cells. */
module ClientApi {
  import opened Wrappers
  import opened Text
  import opened Domain
  import opened Entities
  import opened Sequences
  import opened Schemas

  /** A bet as the list endpoint hands it to the browser. */
  datatype BetView = BetView(
    id: string,
    teams: string,
    betType: string,
    odds: real,
    stake: real,
    currency: string,
    matchTime: string,
    status: BetStatus,
    result: Option<BetResult>,
    actualReturn: Option<real>,
    notes: Option<string>,
    createdAt: string)

  /** The exported columns, in order. */
  const Columns: seq<string> :=
    ["id", "teams", "bet_type", "odds", "stake", "currency", "match_time", "status", "result",
     "actual_return", "notes", "created_at"]

  const Quote: char := '"'

  /** A field must be quoted when it holds a comma, a double quote or a line
      feed; a carriage return alone does not count. */
  predicate NeedsQuotes(s: string) {
    ',' in s || Quote in s || '\n' in s
  }

  /** `replaceAll('"', '""')`. */
  function DoubleQuotes(s: string): string {
    if |s| == 0 then ""
    else (if s[0] == Quote then [Quote, Quote] else [s[0]]) + DoubleQuotes(s[1..])
  }

  /** A missing value (`null` or `undefined`) is an empty field. */
  function CellText(v: Option<string>): string {
    v.GetOr("")
  }

  /** `esc`: the value's text, wrapped in quotes with inner quotes doubled
      when it needs quoting. */
  function Esc(v: Option<string>): (r: string)
    ensures NeedsQuotes(CellText(v)) <==> |r| > 0 && r[0] == Quote
    ensures !NeedsQuotes(CellText(v)) ==> r == CellText(v)
  {
    var s := CellText(v);
    if NeedsQuotes(s) then [Quote] + DoubleQuotes(s) + [Quote] else s
  }

  // ---------------------------------------------------------------------
  // Reading the dialect back
  // ---------------------------------------------------------------------

  /** The rest of a quoted field after its opening quote: the content, with
      each doubled quote read as one, and what follows the closing quote.
      `None` when the closing quote is missing. */
  function ReadQuoted(s: string): (r: Option<(string, string)>)
    ensures r.Some? ==> |r.value.1| < |s|
  {
    if |s| == 0 then None
    else if s[0] == Quote then
      if |s| >= 2 && s[1] == Quote then
        match ReadQuoted(s[2..])
        case None => None
        case Some(p) => Some(([Quote] + p.0, p.1))
      else Some(("", s[1..]))
    else
      match ReadQuoted(s[1..])
      case None => None
      case Some(p) => Some(([s[0]] + p.0, p.1))
  }

  /** An unquoted field runs to the next comma, line feed or the end. */
  function ReadPlain(s: string): (r: (string, string))
    ensures r.0 + r.1 == s
    ensures |r.1| == 0 || r.1[0] == ',' || r.1[0] == '\n'
  {
    if |s| == 0 || s[0] == ',' || s[0] == '\n' then ("", s)
    else
      var p := ReadPlain(s[1..]);
      assert [s[0]] + p.0 + p.1 == [s[0]] + s[1..] == s;
      ([s[0]] + p.0, p.1)
  }

  function ReadField(s: string): (r: Option<(string, string)>)
    ensures r.Some? ==> |r.value.1| <= |s|
  {
    if |s| > 0 && s[0] == Quote then ReadQuoted(s[1..]) else Some(ReadPlain(s))
  }

  /** Reads the records of `s`, continuing a record whose fields so far are
      `fields` after the records `records`. A field must be followed by a
      comma, a line feed or the end. */
  function ParseFrom(s: string, fields: seq<string>, records: seq<seq<string>>): Option<seq<seq<string>>>
    decreases |s|
  {
    match ReadField(s)
    case None => None
    case Some((f, rest)) =>
      if |rest| == 0 then Some(records + [fields + [f]])
      else if rest[0] == ',' then ParseFrom(rest[1..], fields + [f], records)
      else if rest[0] == '\n' then ParseFrom(rest[1..], [], records + [fields + [f]])
      else None
  }

  function ParseCsv(s: string): Option<seq<seq<string>>> {
    ParseFrom(s, [], [])
  }

  // ---------------------------------------------------------------------
  // Writing
  // ---------------------------------------------------------------------

  /** One line: the escaped values joined by commas. */
  function Line(row: seq<Option<string>>): string {
    Join(Map(row, Esc), ",")
  }

  /** The document: the lines joined by line feeds, no trailing one. */
  function Document(rows: seq<seq<Option<string>>>): string {
    Join(Map(rows, Line), "\n")
  }

  function HeaderRow(): (r: seq<Option<string>>)
    ensures |r| == |Columns|
    ensures forall i :: 0 <= i < |Columns| ==> r[i] == Some(Columns[i])
  {
    seq(|Columns|, i requires 0 <= i < |Columns| => Some(Columns[i]))
  }

  /** The values of one bet, in column order; numbers are rendered by
      `showNumber` (`String(number)`). */
  function BetRow(b: BetView, showNumber: real -> string): (r: seq<Option<string>>)
    ensures |r| == |Columns|
  {
    [Some(b.id), Some(b.teams), Some(b.betType), Some(showNumber(b.odds)), Some(showNumber(b.stake)),
     Some(b.currency), Some(b.matchTime), Some(StatusName(b.status)),
     if b.result.Some? then Some(ResultName(b.result.value)) else None,
     if b.actualReturn.Some? then Some(showNumber(b.actualReturn.value)) else None,
     b.notes, Some(b.createdAt)]
  }

  function Rows(bets: seq<BetView>, showNumber: real -> string): seq<seq<Option<string>>> {
    [HeaderRow()] + Map(bets, (b: BetView) => BetRow(b, showNumber))
  }

  /** The text `downloadCsv` puts in the file. Read back, it is the header
      followed by one twelve-field record per bet, in input order, each
      field the value's text (empty when missing). */
  function CsvText(bets: seq<BetView>, showNumber: real -> string): (r: string)
    ensures ParseCsv(r).Some?
    ensures var recs := ParseCsv(r).value;
      && |recs| == |bets| + 1
      && recs[0] == Columns
      && forall i :: 0 <= i < |bets| ==>
           |recs[i + 1]| == |Columns| && recs[i + 1] == Map(BetRow(bets[i], showNumber), CellText)
  {
    ExportReadsBack(bets, showNumber);
    RecordsShape(bets, showNumber);
    Document(Rows(bets, showNumber))
  }

  lemma ExportReadsBack(bets: seq<BetView>, showNumber: real -> string)
    ensures ParseCsv(Document(Rows(bets, showNumber))) == Some(Map(Rows(bets, showNumber), RowTexts))
  {
    var rows := Rows(bets, showNumber);
    RowsShape(bets, showNumber);
    DocumentRoundTrip(rows, []);
    assert [] + Map(rows, RowTexts) == Map(rows, RowTexts);
  }

  lemma RecordsShape(bets: seq<BetView>, showNumber: real -> string)
    ensures var recs := Map(Rows(bets, showNumber), RowTexts);
      && |recs| == |bets| + 1
      && recs[0] == Columns
      && forall i :: 0 <= i < |bets| ==>
           |recs[i + 1]| == |Columns| && recs[i + 1] == Map(BetRow(bets[i], showNumber), CellText)
  {
    RowsShape(bets, showNumber);
    HeaderTexts();
  }

  lemma RowsShape(bets: seq<BetView>, showNumber: real -> string)
    ensures var rows := Rows(bets, showNumber);
      && |rows| == |bets| + 1 && rows[0] == HeaderRow()
      && (forall i :: 0 <= i < |bets| ==> rows[i + 1] == BetRow(bets[i], showNumber))
      && forall i :: 0 <= i < |rows| ==> |rows[i]| >= 1
  {
    var rows := Rows(bets, showNumber);
    assert forall i :: 0 <= i < |bets| ==> rows[i + 1] == BetRow(bets[i], showNumber);
  }

  lemma HeaderTexts()
    ensures Map(HeaderRow(), CellText) == Columns
  {
  }

  /** The header line is the column names joined by commas, none of them
      needing quotes. */
  lemma HeaderLine()
    ensures Line(HeaderRow()) == Join(Columns, ",")
  {
    var header := Map(HeaderRow(), Esc);
    forall i | 0 <= i < |Columns|
      ensures header[i] == Columns[i]
    {
      ColumnPlain(Columns[i]);
    }
    assert header == Columns;
  }

  /** No column name holds a comma, a quote or a line feed. */
  lemma ColumnPlain(c: string)
    requires c in Columns
    ensures !NeedsQuotes(c)
  {
  }

  // ---------------------------------------------------------------------
  // Round trip
  // ---------------------------------------------------------------------

  lemma {:induction false} QuotedRoundTrip(s: string, t: string)
    requires |t| == 0 || t[0] != Quote
    ensures ReadQuoted(DoubleQuotes(s) + [Quote] + t) == Some((s, t))
  {
    if |s| == 0 {
      assert DoubleQuotes(s) + [Quote] + t == [Quote] + t;
    } else {
      QuotedRoundTrip(s[1..], t);
      var input := DoubleQuotes(s) + [Quote] + t;
      if s[0] == Quote {
        assert input == [Quote, Quote] + (DoubleQuotes(s[1..]) + [Quote] + t);
        assert input[2..] == DoubleQuotes(s[1..]) + [Quote] + t;
      } else {
        assert input == [s[0]] + (DoubleQuotes(s[1..]) + [Quote] + t);
        assert input[1..] == DoubleQuotes(s[1..]) + [Quote] + t;
      }
      assert s == [s[0]] + s[1..];
    }
  }

  lemma {:induction false} PlainRoundTrip(s: string, t: string)
    requires ',' !in s && '\n' !in s
    requires |t| == 0 || t[0] == ',' || t[0] == '\n'
    ensures ReadPlain(s + t) == (s, t)
  {
    if |s| == 0 {
      assert s + t == t;
    } else {
      assert (s + t)[1..] == s[1..] + t;
      assert s[1..] + t == (s + t)[1..];
      assert forall c :: c in s[1..] ==> c in s;
      assert s[0] in s;
      PlainRoundTrip(s[1..], t);
      assert s == [s[0]] + s[1..];
    }
  }

  /** An escaped value is read back as the value's text, and the reader
      stops exactly at the separator that follows. */
  lemma FieldRoundTrip(v: Option<string>, t: string)
    requires |t| == 0 || t[0] == ',' || t[0] == '\n'
    ensures ReadField(Esc(v) + t) == Some((CellText(v), t))
  {
    var s := CellText(v);
    if NeedsQuotes(s) {
      assert Esc(v) + t == [Quote] + (DoubleQuotes(s) + [Quote] + t);
      QuotedRoundTrip(s, t);
    } else {
      PlainRoundTrip(s, t);
      if |s| > 0 {
        assert s[0] in s;
      }
    }
  }

  /** After an escaped value the reader goes on according to the separator
      that follows it. */
  lemma ParseAfterField(v: Option<string>, rest: string, fields: seq<string>, records: seq<seq<string>>)
    requires |rest| == 0 || rest[0] == ',' || rest[0] == '\n'
    ensures ParseFrom(Esc(v) + rest, fields, records)
         == if |rest| == 0 then Some(records + [fields + [CellText(v)]])
            else if rest[0] == ',' then ParseFrom(rest[1..], fields + [CellText(v)], records)
            else ParseFrom(rest[1..], [], records + [fields + [CellText(v)]])
  {
    FieldRoundTrip(v, rest);
  }

  lemma {:induction false} LineRoundTrip(row: seq<Option<string>>, t: string,
                                         fields: seq<string>, records: seq<seq<string>>)
    requires |row| >= 1
    requires |t| == 0 || t[0] == '\n'
    ensures ParseFrom(Line(row) + t, fields, records)
         == if |t| == 0 then Some(records + [fields + Map(row, CellText)])
            else ParseFrom(t[1..], [], records + [fields + Map(row, CellText)])
  {
    var cells := Map(row, Esc);
    var texts := Map(row, CellText);
    if |row| == 1 {
      assert Line(row) == Esc(row[0]);
      ParseAfterField(row[0], t, fields, records);
      assert texts == [CellText(row[0])];
    } else {
      assert cells[1..] == Map(row[1..], Esc);
      assert Line(row) == Esc(row[0]) + "," + Line(row[1..]);
      var tail := "," + Line(row[1..]) + t;
      assert Line(row) + t == Esc(row[0]) + tail;
      ParseAfterField(row[0], tail, fields, records);
      assert tail[1..] == Line(row[1..]) + t;
      LineRoundTrip(row[1..], t, fields + [CellText(row[0])], records);
      assert texts == [CellText(row[0])] + Map(row[1..], CellText);
      Assoc(fields, [CellText(row[0])], Map(row[1..], CellText));
    }
  }

  /** Reading a document back gives its rows' texts, record for record. */
  lemma {:induction false} DocumentRoundTrip(rows: seq<seq<Option<string>>>, records: seq<seq<string>>)
    requires |rows| >= 1
    requires forall i :: 0 <= i < |rows| ==> |rows[i]| >= 1
    ensures ParseFrom(Document(rows), [], records) == Some(records + Map(rows, RowTexts))
  {
    var lines := Map(rows, Line);
    if |rows| == 1 {
      assert Document(rows) == Line(rows[0]) + "";
      LineRoundTrip(rows[0], "", [], records);
      assert [] + Map(rows[0], CellText) == RowTexts(rows[0]);
      assert Map(rows, RowTexts) == [RowTexts(rows[0])];
    } else {
      assert lines[1..] == Map(rows[1..], Line);
      assert Document(rows) == Line(rows[0]) + ("\n" + Document(rows[1..]));
      LineRoundTrip(rows[0], "\n" + Document(rows[1..]), [], records);
      assert ("\n" + Document(rows[1..]))[1..] == Document(rows[1..]);
      assert [] + Map(rows[0], CellText) == RowTexts(rows[0]);
      assert forall i :: 0 <= i < |rows[1..]| ==> rows[1..][i] == rows[i + 1];
      DocumentRoundTrip(rows[1..], records + [RowTexts(rows[0])]);
      assert Map(rows, RowTexts) == [RowTexts(rows[0])] + Map(rows[1..], RowTexts);
      Assoc(records, [RowTexts(rows[0])], Map(rows[1..], RowTexts));
    }
  }

  lemma Assoc<T>(a: seq<T>, b: seq<T>, c: seq<T>)
    ensures a + b + c == a + (b + c)
  {
  }

  function RowTexts(row: seq<Option<string>>): seq<string> {
    Map(row, CellText)
  }
}

/**
  The CSV printer of src/observability/analytics-dashboard.service.ts and a strict reader of
  section 2 of RFC 4180 (records separated by LF), which undoes it.
*/
module Csv {
  import opened Wrappers

  type Record = seq<string>

  // ---------------------------------------------------------------- the printer

  /** value.replace(/"/g, '""'). */
  function Doubled(s: string): string {
    if s == "" then "" else (if s[0] == '"' then "\"\"" else [s[0]]) + Doubled(s[1..])
  }

  function Escaped(s: string): string { "\"" + Doubled(s) + "\"" }

  function PrintRecord(r: Record): string {
    if r == [] then ""
    else if |r| == 1 then Escaped(r[0])
    else PrintRecord(r[..|r| - 1]) + "," + Escaped(r[|r| - 1])
  }

  function PrintRecords(records: seq<Record>): string
    requires records != []
  {
    if |records| == 1 then PrintRecord(records[0])
    else PrintRecords(records[..|records| - 1]) + "\n" + PrintRecord(records[|records| - 1])
  }

  function ToCsv(headers: Record, rows: seq<Record>): string { PrintRecords([headers] + rows) }

  // ---------------------------------------------------------------- the reader

  /** At the start of a field; in a plain field; in a quoted field; just after a quote inside one; broken. */
  datatype Mode = AtStart | Plain | Quoted | AfterQuote | Broken

  datatype Reader = Reader(records: seq<Record>, record: Record, field: string, mode: Mode)

  function NextField(r: Reader): Reader {
    Reader(r.records, r.record + [r.field], "", AtStart)
  }

  function NextRecord(r: Reader): Reader {
    Reader(r.records + [r.record + [r.field]], [], "", AtStart)
  }

  function Read(r: Reader, c: char): Reader {
    match r.mode
    case AtStart =>
      if c == '"' then r.(mode := Quoted)
      else if c == ',' then NextField(r)
      else if c == '\n' then NextRecord(r)
      else r.(field := [c], mode := Plain)
    case Plain =>
      if c == '"' then r.(mode := Broken)
      else if c == ',' then NextField(r)
      else if c == '\n' then NextRecord(r)
      else r.(field := r.field + [c])
    case Quoted =>
      if c == '"' then r.(mode := AfterQuote) else r.(field := r.field + [c])
    case AfterQuote =>
      if c == '"' then r.(field := r.field + [c], mode := Quoted)
      else if c == ',' then NextField(r)
      else if c == '\n' then NextRecord(r)
      else r.(mode := Broken)
    case Broken => r
  }

  function ReadAll(r: Reader, s: string): Reader
    decreases s
  {
    if s == "" then r else ReadAll(Read(r, s[0]), s[1..])
  }

  /** The records of a text, or None when it is not in the format. */
  function Parse(s: string): Option<seq<Record>> {
    var end := ReadAll(Reader([], [], "", AtStart), s);
    if end.mode == Broken || end.mode == Quoted then None else Some(NextRecord(end).records)
  }

  // ---------------------------------------------------------------- the round trip

  lemma {:induction false} ReadConcat(r: Reader, s: string, t: string)
    ensures ReadAll(r, s + t) == ReadAll(ReadAll(r, s), t)
    decreases s
  {
    if s == "" {
      assert s + t == t;
    } else {
      assert (s + t)[1..] == s[1..] + t;
      ReadConcat(Read(r, s[0]), s[1..], t);
    }
  }

  lemma ReadOne(r: Reader, c: char)
    ensures ReadAll(r, [c]) == Read(r, c)
  {
    assert [c][1..] == "";
  }

  /** Inside quotes, doubled text reads back as the text. */
  lemma {:induction false} ReadDoubled(r: Reader, s: string)
    requires r.mode == Quoted
    ensures ReadAll(r, Doubled(s)) == r.(field := r.field + s)
    decreases s
  {
    if s == "" {
      assert r.field + s == r.field;
    } else {
      var first := if s[0] == '"' then "\"\"" else [s[0]];
      var next := r.(field := r.field + [s[0]]);
      ReadFirst(r, s[0]);
      ReadConcat(r, first, Doubled(s[1..]));
      ReadDoubled(next, s[1..]);
      assert r.field + [s[0]] + s[1..] == r.field + s;
    }
  }

  lemma ReadFirst(r: Reader, c: char)
    requires r.mode == Quoted
    ensures ReadAll(r, if c == '"' then "\"\"" else [c]) == r.(field := r.field + [c])
  {
    ReadOne(r, c);
    if c == '"' {
      ReadConcat(r, "\"", "\"");
      assert "\"" + "\"" == "\"\"";
      ReadOne(r.(mode := AfterQuote), c);
    }
  }

  lemma ReadEscaped(r: Reader, s: string)
    requires r.mode == AtStart && r.field == ""
    ensures ReadAll(r, Escaped(s)) == r.(field := s, mode := AfterQuote)
  {
    var open := r.(mode := Quoted);
    ReadOne(r, '"');
    ReadDoubled(open, s);
    ReadOne(open.(field := open.field + s), '"');
    ReadConcat(r, "\"", Doubled(s));
    ReadConcat(r, "\"" + Doubled(s), "\"");
    assert "" + s == s;
  }

  /** A printed record reads back field by field. */
  lemma {:induction false} ReadRecord(r: Reader, record: Record)
    requires r.mode == AtStart && r.field == "" && r.record == [] && record != []
    ensures var end := ReadAll(r, PrintRecord(record));
      end.records == r.records && end.mode == AfterQuote && end.record + [end.field] == record
    decreases record
  {
    if |record| == 1 {
      ReadEscaped(r, record[0]);
    } else {
      var front, last := record[..|record| - 1], record[|record| - 1];
      ReadRecord(r, front);
      var end := ReadAll(r, PrintRecord(front));
      hide Escaped, PrintRecord, ReadAll;
      ReadOne(end, ',');
      ReadEscaped(NextField(end), last);
      ReadConcat(r, PrintRecord(front), ",");
      ReadConcat(r, PrintRecord(front) + ",", Escaped(last));
      assert record == front + [last];
      PrintLast(record);
    }
  }

  lemma PrintLast(record: Record)
    requires |record| > 1
    ensures PrintRecord(record) == PrintRecord(record[..|record| - 1]) + "," + Escaped(record[|record| - 1])
  {
  }

  lemma ReadAnother(start: Reader, text: string, record: Record)
    requires ReadAll(start, text).mode == AfterQuote && record != []
    ensures var end := ReadAll(start, text + "\n" + PrintRecord(record));
      end.mode == AfterQuote && NextRecord(end).records == NextRecord(ReadAll(start, text)).records + [record]
  {
    hide PrintRecord, ReadAll;
    var end := ReadAll(start, text);
    ReadOne(end, '\n');
    ReadRecord(NextRecord(end), record);
    ReadConcat(start, text, "\n");
    ReadConcat(start, text + "\n", PrintRecord(record));
  }

  /** Every record of a table with a field in it ends where the printer ended it. */
  lemma {:induction false} ReadRecords(records: seq<Record>)
    requires records != [] && forall k :: 0 <= k < |records| ==> records[k] != []
    ensures var end := ReadAll(Reader([], [], "", AtStart), PrintRecords(records));
      end.mode == AfterQuote && NextRecord(end).records == records
  {
    var start := Reader([], [], "", AtStart);
    if |records| == 1 {
      ReadRecord(start, records[0]);
    } else {
      var front, last := records[..|records| - 1], records[|records| - 1];
      ReadRecords(front);
      ReadAnother(start, PrintRecords(front), last);
      assert PrintRecords(records) == PrintRecords(front) + "\n" + PrintRecord(last);
      assert records == front + [last];
    }
  }

  /** The reader undoes the printer: headers and rows come back exactly. */
  lemma RoundTrip(headers: Record, rows: seq<Record>)
    requires headers != [] && forall k :: 0 <= k < |rows| ==> rows[k] != []
    ensures Parse(ToCsv(headers, rows)) == Some([headers] + rows)
  {
    ReadRecords([headers] + rows);
  }

  lemma {:induction false} ReaderFields(r: Reader, s: string)
    requires forall k :: 0 <= k < |r.records| ==> r.records[k] != []
    ensures forall k :: 0 <= k < |ReadAll(r, s).records| ==> ReadAll(r, s).records[k] != []
    decreases s
  {
    if s != "" {
      ReaderFields(Read(r, s[0]), s[1..]);
    }
  }

  /** The round trip works exactly for the tables in which every record has a field. */
  lemma RoundTripIff(headers: Record, rows: seq<Record>)
    ensures Parse(ToCsv(headers, rows)) == Some([headers] + rows)
       <==> headers != [] && forall k :: 0 <= k < |rows| ==> rows[k] != []
  {
    if headers != [] && forall k :: 0 <= k < |rows| ==> rows[k] != [] {
      RoundTrip(headers, rows);
    }
    ReaderFields(Reader([], [], "", AtStart), ToCsv(headers, rows));
    AllFilled(headers, rows);
  }

  lemma AllFilled(headers: Record, rows: seq<Record>)
    ensures (forall k :: 0 <= k < |[headers] + rows| ==> ([headers] + rows)[k] != [])
       <==> headers != [] && forall k :: 0 <= k < |rows| ==> rows[k] != []
  {
    var records := [headers] + rows;
    assert records[0] == headers;
    assert forall k :: 0 <= k < |rows| ==> records[k + 1] == rows[k];
  }

  /** Two tables without empty records that print alike are alike. */
  lemma PrinterInjective(headers: Record, rows: seq<Record>, headers': Record, rows': seq<Record>)
    requires headers != [] && forall k :: 0 <= k < |rows| ==> rows[k] != []
    requires headers' != [] && forall k :: 0 <= k < |rows'| ==> rows'[k] != []
    requires ToCsv(headers, rows) == ToCsv(headers', rows')
    ensures headers == headers' && rows == rows'
  {
    RoundTrip(headers, rows);
    RoundTrip(headers', rows');
    assert ([headers] + rows)[0] == ([headers'] + rows')[0];
    assert ([headers] + rows)[1..] == rows && ([headers'] + rows')[1..] == rows';
  }
}

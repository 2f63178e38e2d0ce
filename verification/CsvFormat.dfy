/**
  The texts of section 2 of RFC 4180, records separated by LF: the reader of module Csv takes exactly these, and the
  printer of src/observability/analytics-dashboard.service.ts writes those in which every field is quoted.
*/
module CsvFormat {
  import opened Wrappers
  import opened Csv

  /** A field as a text writes it: in quotes, or as it is. */
  datatype Form = Form(value: string, quoted: bool)

  /** The text with every quote twice. */
  function Twice(s: string): string {
    if s == "" then ""
    else
      var last := s[|s| - 1];
      Twice(s[..|s| - 1]) + if last == '"' then "\"\"" else [last]
  }

  /** Only a text without quotes, commas and line ends may stand without quotes. */
  predicate Bare(s: string) {
    forall k :: 0 <= k < |s| ==> s[k] != '"' && s[k] != ',' && s[k] != '\n'
  }

  predicate Legal(f: Form) { f.quoted || Bare(f.value) }

  function Written(f: Form): string { if f.quoted then "\"" + Twice(f.value) + "\"" else f.value }

  /** The fields, a comma after each. */
  function Fields(fs: seq<Form>): string {
    if fs == [] then "" else Fields(fs[..|fs| - 1]) + Written(fs[|fs| - 1]) + ","
  }

  function Line(fs: seq<Form>): string
    requires fs != []
  {
    Fields(fs[..|fs| - 1]) + Written(fs[|fs| - 1])
  }

  ghost predicate LegalLine(fs: seq<Form>) {
    fs != [] && forall k :: 0 <= k < |fs| ==> Legal(fs[k])
  }

  ghost predicate LegalLines(doc: seq<seq<Form>>) {
    forall k :: 0 <= k < |doc| ==> LegalLine(doc[k])
  }

  /** The lines, a line end after each. */
  function Lines(doc: seq<seq<Form>>): string
    requires LegalLines(doc)
  {
    if doc == [] then "" else Lines(doc[..|doc| - 1]) + Line(doc[|doc| - 1]) + "\n"
  }

  function Document(doc: seq<seq<Form>>): string
    requires LegalLines(doc) && doc != []
  {
    Lines(doc[..|doc| - 1]) + Line(doc[|doc| - 1])
  }

  function ValuesOf(fs: seq<Form>): Record {
    if fs == [] then [] else ValuesOf(fs[..|fs| - 1]) + [fs[|fs| - 1].value]
  }

  function RecordsOf(doc: seq<seq<Form>>): seq<Record> {
    if doc == [] then [] else RecordsOf(doc[..|doc| - 1]) + [ValuesOf(doc[|doc| - 1])]
  }

  const Start: Reader := Reader([], [], "", AtStart)

  // ---------------------------------------------------------------- every such text is read

  lemma {:induction false} DoubledConcat(s: string, t: string)
    ensures Doubled(s + t) == Doubled(s) + Doubled(t)
  {
    if s == "" {
      assert s + t == t;
    } else {
      assert (s + t)[1..] == s[1..] + t;
      DoubledConcat(s[1..], t);
    }
  }

  lemma {:induction false} TwiceIs(s: string)
    ensures Doubled(s) == Twice(s)
  {
    if s != "" {
      var front, last := s[..|s| - 1], s[|s| - 1];
      assert s == front + [last] && [last][1..] == "";
      DoubledConcat(front, [last]);
      TwiceIs(front);
    }
  }

  lemma {:induction false} ReadBare(r: Reader, s: string)
    requires Bare(s) && r.mode == Plain
    ensures ReadAll(r, s) == r.(field := r.field + s)
    decreases s
  {
    if s == "" {
      assert r.field + s == r.field;
    } else {
      ReadBare(Read(r, s[0]), s[1..]);
      assert r.field + s == r.field + [s[0]] + s[1..];
    }
  }

  lemma ReadForm(r: Reader, f: Form)
    requires r.mode == AtStart && r.field == "" && Legal(f)
    ensures var end := ReadAll(r, Written(f));
      end == r.(field := f.value, mode := end.mode) && end.mode != Broken && end.mode != Quoted
  {
    if f.quoted {
      TwiceIs(f.value);
      ReadEscaped(r, f.value);
    } else if f.value != "" {
      var s := f.value;
      ReadBare(Read(r, s[0]), s[1..]);
      assert s == [s[0]] + s[1..];
    }
  }

  /** From the start of a field on, fields that commas end are read one by one. */
  lemma {:induction false} ReadFields(r: Reader, fs: seq<Form>)
    requires r.mode == AtStart && r.field == "" && forall k :: 0 <= k < |fs| ==> Legal(fs[k])
    ensures ReadAll(r, Fields(fs)) == r.(record := r.record + ValuesOf(fs))
  {
    hide Written, Read, Legal;
    if fs == [] {
      assert r.record + [] == r.record;
    } else {
      var front, last := fs[..|fs| - 1], fs[|fs| - 1];
      ReadFields(r, front);
      var mid := ReadAll(r, Fields(front));
      ReadForm(mid, last);
      ReadConcat(r, Fields(front), Written(last));
      ReadConcat(r, Fields(front) + Written(last), ",");
      ReadMark(ReadAll(mid, Written(last)));
      assert r.record + ValuesOf(front) + [last.value] == r.record + (ValuesOf(front) + [last.value]);
    }
  }

  lemma ReadMark(r: Reader)
    requires r.mode != Broken && r.mode != Quoted
    ensures ReadAll(r, ",") == NextField(r) && ReadAll(r, "\n") == NextRecord(r)
  {
    ReadOne(r, ',');
    ReadOne(r, '\n');
  }

  lemma ReadLine(r: Reader, fs: seq<Form>)
    requires r.mode == AtStart && r.field == "" && r.record == [] && LegalLine(fs)
    ensures var end := ReadAll(r, Line(fs));
      end.records == r.records && end.record + [end.field] == ValuesOf(fs) && end.mode != Broken && end.mode != Quoted
  {
    hide Written, Read, ReadAll, Legal;
    var front, last := fs[..|fs| - 1], fs[|fs| - 1];
    ReadFields(r, front);
    ReadForm(r.(record := r.record + ValuesOf(front)), last);
    ReadConcat(r, Fields(front), Written(last));
  }

  lemma {:induction false} ReadLines(doc: seq<seq<Form>>)
    requires LegalLines(doc)
    ensures ReadAll(Start, Lines(doc)) == Start.(records := RecordsOf(doc))
  {
    hide Line, Read, LegalLine;
    if doc != [] {
      var front, last := doc[..|doc| - 1], doc[|doc| - 1];
      ReadLines(front);
      var mid := Start.(records := RecordsOf(front));
      ReadLine(mid, last);
      ReadConcat(Start, Lines(front), Line(last));
      ReadConcat(Start, Lines(front) + Line(last), "\n");
      ReadMark(ReadAll(mid, Line(last)));
    }
  }

  lemma ReadDocument(doc: seq<seq<Form>>)
    requires LegalLines(doc) && doc != []
    ensures Parse(Document(doc)) == Some(RecordsOf(doc))
  {
    hide Line, Read, ReadAll, Lines, LegalLine;
    var front, last := doc[..|doc| - 1], doc[|doc| - 1];
    ReadLines(front);
    ReadLine(Start.(records := RecordsOf(front)), last);
    ReadConcat(Start, Lines(front), Line(last));
  }

  // ---------------------------------------------------------------- and no other

  /** What stands in the text for a field begun. */
  function Begun(r: Reader): string {
    match r.mode
    case Quoted => "\"" + Twice(r.field)
    case AfterQuote => "\"" + Twice(r.field) + "\""
    case _ => r.field
  }

  ghost predicate Unreads(s: string, doc: seq<seq<Form>>, fs: seq<Form>, r: Reader) {
    && LegalLines(doc) && (forall k :: 0 <= k < |fs| ==> Legal(fs[k]))
    && s == Lines(doc) + Fields(fs) + Begun(r)
    && r.records == RecordsOf(doc) && r.record == ValuesOf(fs) && r.mode != Broken
    && (r.mode == AtStart ==> r.field == "") && (r.mode == Plain ==> Bare(r.field))
  }

  function Ended(r: Reader): Form { Form(r.field, r.mode == AfterQuote) }

  lemma EndedIs(r: Reader)
    requires r.mode != Quoted && r.mode != Broken && (r.mode == AtStart ==> r.field == "") && (r.mode == Plain ==> Bare(r.field))
    ensures Written(Ended(r)) == Begun(r) && Legal(Ended(r)) && Ended(r).value == r.field
  {
  }

  lemma FieldEnds(s: string, doc: seq<seq<Form>>, fs: seq<Form>, r: Reader)
    requires Unreads(s, doc, fs, r) && r.mode != Quoted
    ensures Unreads(s + ",", doc, fs + [Ended(r)], NextField(r))
  {
    hide Lines, Written, Legal, Bare;
    EndedIs(r);
    var more := fs + [Ended(r)];
    assert more[..|more| - 1] == fs;
    assert s + "," == Lines(doc) + (Fields(fs) + Begun(r) + ",") + "";
  }

  lemma LineEnds(s: string, doc: seq<seq<Form>>, fs: seq<Form>, r: Reader)
    requires Unreads(s, doc, fs, r) && r.mode != Quoted
    ensures Unreads(s + "\n", doc + [fs + [Ended(r)]], [], NextRecord(r))
  {
    hide Written, Legal, Bare, Line, LegalLine, Lines, ValuesOf, Begun, Ended;
    EndedIs(r);
    LineMore(fs, Ended(r));
    LinesMore(doc, fs + [Ended(r)]);
    NothingBegun(NextRecord(r));
    assert s + "\n" == Lines(doc) + (Fields(fs) + Begun(r)) + "\n";
  }

  lemma LineMore(fs: seq<Form>, f: Form)
    requires Legal(f) && forall k :: 0 <= k < |fs| ==> Legal(fs[k])
    ensures LegalLine(fs + [f]) && Line(fs + [f]) == Fields(fs) + Written(f)
    ensures ValuesOf(fs + [f]) == ValuesOf(fs) + [f.value]
  {
    assert (fs + [f])[..|fs + [f]| - 1] == fs;
  }

  lemma LinesMore(doc: seq<seq<Form>>, line: seq<Form>)
    requires LegalLines(doc) && LegalLine(line)
    ensures LegalLines(doc + [line]) && Lines(doc + [line]) == Lines(doc) + Line(line) + "\n"
    ensures RecordsOf(doc + [line]) == RecordsOf(doc) + [ValuesOf(line)]
  {
    assert (doc + [line])[..|doc + [line]| - 1] == doc;
  }

  lemma NothingBegun(r: Reader)
    requires r.mode == AtStart && r.field == ""
    ensures Begun(r) == "" && Fields([]) == "" && ValuesOf([]) == []
  {
  }

  lemma TwiceMore(s: string, c: char)
    ensures Twice(s + [c]) == Twice(s) + if c == '"' then "\"\"" else [c]
  {
    assert (s + [c])[..|s + [c]| - 1] == s;
  }

  lemma BegunGrows(r: Reader, c: char)
    requires r.mode != Broken && Read(r, c).mode != Broken && (r.mode != Quoted ==> c != ',' && c != '\n')
    requires r.mode == AtStart ==> r.field == ""
    ensures Begun(Read(r, c)) == Begun(r) + [c]
  {
    hide Twice;
    TwiceNone();
    TwiceMore(r.field, c);
    var t := Twice(r.field);
    if r.mode == Quoted {
      assert "\"" + (t + [c]) == "\"" + t + [c];
    } else if r.mode == AfterQuote {
      assert "\"" + (t + "\"\"") == "\"" + t + "\"" + [c];
    } else {
      assert [c] == "" + [c];
    }
  }

  lemma TwiceNone()
    ensures Twice("") == ""
  {
  }

  lemma FieldGrows(s: string, doc: seq<seq<Form>>, fs: seq<Form>, r: Reader, c: char)
    requires Unreads(s, doc, fs, r) && Read(r, c).mode != Broken && (r.mode != Quoted ==> c != ',' && c != '\n')
    ensures Unreads(s + [c], doc, fs, Read(r, c))
  {
    hide Lines, Fields, Legal, LegalLine, Begun, Read, Bare, LegalLines, RecordsOf, ValuesOf;
    BegunGrows(r, c);
    OnlyField(r, c);
    assert s + [c] == Lines(doc) + Fields(fs) + (Begun(r) + [c]);
  }

  lemma OnlyField(r: Reader, c: char)
    requires r.mode != Broken && Read(r, c).mode != Broken && (r.mode != Quoted ==> c != ',' && c != '\n')
    ensures var next := Read(r, c);
      && next.records == r.records && next.record == r.record && next.mode != AtStart
      && (next.mode == Plain && (r.mode == Plain ==> Bare(r.field)) ==> Bare(next.field))
  {
  }

  /** Whatever has been read of a text without breaking off can be told from the reader. */
  lemma {:induction false} Unread(s: string) returns (doc: seq<seq<Form>>, fs: seq<Form>)
    requires ReadAll(Start, s).mode != Broken
    ensures Unreads(s, doc, fs, ReadAll(Start, s))
  {
    hide Read, Unreads;
    if s == "" {
      doc, fs := [], [];
      UnreadNothing();
    } else {
      var front, c := s[..|s| - 1], s[|s| - 1];
      assert s == front + [c];
      ReadConcat(Start, front, [c]);
      ReadOne(ReadAll(Start, front), c);
      var r := ReadAll(Start, front);
      BrokenStays(r, c);
      doc, fs := Unread(front);
      if r.mode != Quoted && c == ',' {
        ReadMark(r);
        FieldEnds(front, doc, fs, r);
        fs := fs + [Ended(r)];
      } else if r.mode != Quoted && c == '\n' {
        ReadMark(r);
        LineEnds(front, doc, fs, r);
        doc, fs := doc + [fs + [Ended(r)]], [];
      } else {
        FieldGrows(front, doc, fs, r, c);
      }
    }
  }

  lemma UnreadNothing()
    ensures ReadAll(Start, "") == Start && Unreads("", [], [], Start)
  {
  }

  lemma BrokenStays(r: Reader, c: char)
    ensures r.mode == Broken ==> Read(r, c).mode == Broken
  {
  }

  lemma {:induction false} ParseFinds(s: string) returns (doc: seq<seq<Form>>)
    requires Parse(s).Some?
    ensures LegalLines(doc) && doc != [] && s == Document(doc) && Parse(s) == Some(RecordsOf(doc))
  {
    hide ReadAll, Legal, Bare, Written;
    var lines, fs := Unread(s);
    var r := ReadAll(Start, s);
    EndedIs(r);
    var line := fs + [Ended(r)];
    assert line[..|line| - 1] == fs;
    doc := lines + [line];
    assert doc[..|doc| - 1] == lines;
    assert s == Lines(lines) + (Fields(fs) + Begun(r));
  }

  ghost predicate Writes(doc: seq<seq<Form>>, s: string, records: seq<Record>) {
    LegalLines(doc) && doc != [] && s == Document(doc) && records == RecordsOf(doc)
  }

  /** The reader finds these records in a text if and only if the text writes them, its fields quoted or bare. */
  lemma ParseIff(s: string, records: seq<Record>)
    ensures Parse(s) == Some(records) <==> exists doc :: Writes(doc, s, records)
  {
    hide Parse, Document, RecordsOf;
    if Parse(s) == Some(records) {
      var doc := ParseFinds(s);
      assert Writes(doc, s, records);
    }
    if doc :| Writes(doc, s, records) {
      ReadDocument(doc);
    }
  }

  // ---------------------------------------------------------------- the printer's text

  /** The record with every field quoted. */
  function QuotedLine(r: Record): seq<Form> {
    if r == [] then [] else QuotedLine(r[..|r| - 1]) + [Form(r[|r| - 1], true)]
  }

  function QuotedLines(records: seq<Record>): seq<seq<Form>> {
    if records == [] then [] else QuotedLines(records[..|records| - 1]) + [QuotedLine(records[|records| - 1])]
  }

  lemma {:induction false} RecordPrinted(r: Record)
    requires r != []
    ensures QuotedLine(r) != [] && PrintRecord(r) == Line(QuotedLine(r))
    ensures LegalLine(QuotedLine(r)) && ValuesOf(QuotedLine(r)) == r
  {
    hide Twice, Doubled, Fields;
    var front, last := r[..|r| - 1], r[|r| - 1];
    var line := QuotedLine(r);
    assert line[..|line| - 1] == QuotedLine(front) && r == front + [last];
    TwiceIs(last);
    if front == [] {
      assert r == [last];
      NoFields();
    } else {
      RecordPrinted(front);
      CommaAfter(QuotedLine(front));
    }
  }

  lemma NoFields()
    ensures Fields([]) == "" && ValuesOf([]) == []
  {
  }

  lemma CommaAfter(fs: seq<Form>)
    requires fs != []
    ensures Fields(fs) == Line(fs) + ","
  {
  }

  /**
    The printer writes every field in quotes, with each quote in it twice, a comma between two fields of a record and
    a line end between two records.
  */
  lemma {:induction false} PrinterWrites(records: seq<Record>)
    requires records != [] && forall k :: 0 <= k < |records| ==> records[k] != []
    ensures Writes(QuotedLines(records), PrintRecords(records), records)
  {
    hide PrintRecord, Line, LegalLine, ValuesOf, QuotedLine;
    var front, last := records[..|records| - 1], records[|records| - 1];
    var doc := QuotedLines(records);
    assert doc[..|doc| - 1] == QuotedLines(front) && records == front + [last];
    RecordPrinted(last);
    if front == [] {
      assert records == [last];
      assert QuotedLines(front) == [] && Lines([]) == "" && RecordsOf([]) == [];
    } else {
      PrinterWrites(front);
      LineEndAfter(QuotedLines(front));
    }
  }

  lemma LineEndAfter(doc: seq<seq<Form>>)
    requires LegalLines(doc) && doc != []
    ensures Lines(doc) == Document(doc) + "\n"
  {
  }
}

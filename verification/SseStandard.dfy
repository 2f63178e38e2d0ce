/**
  The line parser of src/compute/openai-streaming.adapter.ts beside sections 9.2.5 and 9.2.6 of the WHATWG
  HTML Standard: on which lines the two read the same payload, and on which streams the same events.
  The stream is decoded text; the byte-order mark that the standard drops from its start is not in it.
*/
module SseStandard {
  import opened Wrappers
  import opened SseStream

  // ---------------------------------------------------------------- lines

  predicate EndsLine(c: char) { c == '\r' || c == '\n' }

  predicate AfterCr(s: string) { s != "" && s[|s| - 1] == '\r' }

  /** The standard's lines: CR, LF and CR LF each end one; the last piece is unterminated. */
  function Pieces(s: string): (pieces: seq<string>)
    ensures |pieces| > 0
  {
    if s == "" then [""] else More(Pieces(s[..|s| - 1]), AfterCr(s[..|s| - 1]), s[|s| - 1])
  }

  /** The pieces once a character has arrived after them. */
  function More(pieces: seq<string>, afterCr: bool, c: char): (more: seq<string>)
    requires |pieces| > 0
    ensures |more| > 0
  {
    if c == '\n' && afterCr then pieces
    else if EndsLine(c) then pieces + [""]
    else Front(pieces) + [Last(pieces) + [c]]
  }

  lemma PiecesMore(front: string, c: char)
    ensures Pieces(front + [c]) == More(Pieces(front), AfterCr(front), c)
  {
    assert (front + [c])[..|front|] == front;
  }

  lemma MoreAfter(a: seq<string>, b: seq<string>, afterCr: bool, c: char)
    requires |b| > 0
    ensures More(a + b, afterCr, c) == a + More(b, afterCr, c)
  {
    assert Front(a + b) == a + Front(b);
  }

  function StandardLines(text: string): seq<string> { Front(Pieces(text)) }

  /** What the standard reads from one line of the parser. */
  function Complete(line: string): seq<string> { StandardLines(line + "\n") }

  function CompleteAll(lines: seq<string>): seq<string> {
    if lines == [] then [] else CompleteAll(Front(lines)) + Complete(Last(lines))
  }

  /** After a line feed the standard's lines start afresh. */
  lemma {:induction false} PiecesAfter(a: string, b: string)
    ensures Pieces(a + "\n" + b) == Complete(a) + Pieces(b)
  {
    hide Pieces, Complete, More, AfterCr;
    if b == "" {
      assert a + "\n" + b == a + "\n";
      FreshLine(a);
    } else {
      var front, c := b[..|b| - 1], b[|b| - 1];
      PiecesAfter(a, front);
      assert b == front + [c] && a + "\n" + b == a + "\n" + front + [c];
      PiecesMore(a + "\n" + front, c);
      PiecesMore(front, c);
      MoreAfter(Complete(a), Pieces(front), AfterCr(front), c);
      SameEnd(a + "\n", front);
    }
  }

  lemma SameEnd(a: string, b: string)
    requires a != "" && a[|a| - 1] == '\n'
    ensures AfterCr(a + b) == AfterCr(b)
  {
    assert a + "" == a;
  }

  lemma FrontAfter(a: seq<string>, b: seq<string>)
    requires |b| > 0
    ensures Front(a + b) == a + Front(b) && Last(a + b) == Last(b)
  {
  }

  lemma FreshLine(a: string)
    ensures Pieces(a + "\n") == Complete(a) + [""] && Pieces("") == [""]
  {
    assert (a + "\n")[..|a|] == a;
  }

  /** The standard's lines are those that each of the parser's lines makes, and those in its unterminated rest. */
  lemma {:induction false} PiecesUnsplit(lines: seq<string>)
    requires |lines| > 0
    ensures Pieces(Unsplit(lines)) == CompleteAll(Front(lines)) + Pieces(Last(lines))
    ensures StandardLines(Unsplit(lines) + "\n") == CompleteAll(lines)
  {
    hide Pieces;
    var front, last := Front(lines), Last(lines);
    if |lines| == 1 {
      assert front == [] && [] + Pieces(last) == Pieces(last) && [] + Complete(last) == Complete(last);
    } else {
      PiecesUnsplit(front);
      PiecesAfter(Unsplit(front), last);
      PiecesAfter(Unsplit(front), last + "\n");
      assert Unsplit(lines) + "\n" == Unsplit(front) + "\n" + (last + "\n");
      FrontAfter(CompleteAll(front), Pieces(last + "\n"));
    }
  }

  lemma TextLines(text: string)
    ensures StandardLines(text) == CompleteAll(Lines(text)) + StandardLines(Tail(text))
  {
    hide Pieces, Split, CompleteAll;
    SplitUnsplit(text);
    PiecesUnsplit(Split(text));
    FrontAfter(CompleteAll(Lines(text)), Pieces(Tail(text)));
  }

  // ---------------------------------------------------------------- data

  /** The place of the first colon, or the length. */
  function Colon(s: string): (k: nat)
    ensures k <= |s| && (k < |s| ==> s[k] == ':') && forall j :: 0 <= j < k ==> s[j] != ':'
  {
    if s == "" || s[0] == ':' then 0 else 1 + Colon(s[1..])
  }

  /** The value of a field: what follows the colon, without one leading space. */
  function ValueAfter(line: string, colon: nat): string
    requires colon < |line|
  {
    if colon + 1 < |line| && line[colon + 1] == ' ' then line[colon + 2..] else line[colon + 1..]
  }

  /** What a line of the stream, without its line end, appends to the data buffer, if anything. */
  function DataOf(line: string): Option<string> {
    var k := Colon(line);
    if line[..k] != "data" then None
    else if k == |line| then Some("")
    else Some(ValueAfter(line, k))
  }

  /** The line is a data field, at its very start. */
  predicate IsData(line: string) { line == "data" || "data:" <= line }

  /** What the lines append to the data buffer, in order. */
  function Values(lines: seq<string>): seq<string> {
    if lines == [] then [] else Values(Front(lines)) + Listed(DataOf(Last(lines)))
  }

  function Listed(v: Option<string>): seq<string> {
    match v
    case Some(x) => [x]
    case None => []
  }

  /**
    Where the parser finds data, the trimmed line is one of the standard's lines; where it finds none, none of
    the standard's lines is a data field.
  */
  predicate Agrees(line: string) {
    if Field <= Trim(line) then Trim(line) in Complete(line)
    else forall p :: p in Complete(line) ==> !IsData(p)
  }

  lemma DataLine(line: string)
    ensures DataOf(line).Some? <==> IsData(line)
    ensures "data:" <= line ==> Colon(line) == 4 && DataOf(line) == Some(ValueAfter(line, 4))
  {
    var k := Colon(line);
    if line[..k] == "data" {
      assert k == 4;
      assert line == line[..4] + line[4..];
    }
    if "data:" <= line {
      assert line[..5] == "data:" && line[..4] == "data:"[..4];
      assert forall j :: 0 <= j < 4 ==> line[j] == "data:"[j];
      assert line[4] == "data:"[4];
    }
  }

  lemma {:induction false} ValuesConcat(a: seq<string>, b: seq<string>)
    ensures Values(a + b) == Values(a) + Values(b)
  {
    hide DataOf;
    if b == [] {
      assert a + b == a && Values(a) + [] == Values(a);
    } else {
      ValuesConcat(a, Front(b));
      FrontAfter(a, b);
      assert Values(a) + Values(Front(b)) + Listed(DataOf(Last(b))) == Values(a) + (Values(Front(b)) + Listed(DataOf(Last(b))));
    }
  }

  lemma {:induction false} NoValues(lines: seq<string>)
    ensures Values(lines) == [] <==> forall p :: p in lines ==> !IsData(p)
  {
    hide DataOf, IsData;
    if lines != [] {
      NoValues(Front(lines));
      DataLine(Last(lines));
      assert lines == Front(lines) + [Last(lines)];
    }
  }

  lemma OneValue(line: string)
    ensures Values([line]) == Listed(DataOf(line))
  {
    assert Front([line]) == [] && [] + Listed(DataOf(line)) == Listed(DataOf(line));
  }

  // ---------------------------------------------------------------- one line of the parser

  predicate AllSpace(s: string) { forall k :: 0 <= k < |s| ==> IsSpace(s[k]) }

  lemma {:induction false} TrimEndParts(s: string) returns (post: string)
    ensures s == TrimEnd(s) + post && AllSpace(post)
  {
    hide IsSpace;
    if s != "" && IsSpace(s[|s| - 1]) {
      var p := TrimEndParts(s[..|s| - 1]);
      post := p + [s[|s| - 1]];
    } else {
      post := "";
    }
  }

  lemma {:induction false} TrimStartParts(s: string) returns (pre: string)
    ensures s == pre + TrimStart(s) && AllSpace(pre)
  {
    hide IsSpace;
    if s != "" && IsSpace(s[0]) {
      var p := TrimStartParts(s[1..]);
      pre := [s[0]] + p;
    } else {
      pre := "";
    }
  }

  /** A line is its trimmed text between two stretches of white space. */
  lemma TrimParts(line: string) returns (pre: string, post: string)
    ensures line == pre + Trim(line) + post && AllSpace(pre) && AllSpace(post)
  {
    hide TrimEnd, TrimStart;
    post := TrimEndParts(line);
    pre := TrimStartParts(TrimEnd(line));
  }

  /** The pieces of a text that goes on: the last of the first is continued by the first of the second. */
  function Glue(x: seq<string>, y: seq<string>): seq<string>
    requires |x| > 0 && |y| > 0
  {
    Front(x) + [Last(x) + y[0]] + y[1..]
  }

  lemma GlueMore(x: seq<string>, y: seq<string>, d: bool, e: bool, c: char)
    requires |x| > 0 && |y| > 0 && c != '\n'
    ensures Glue(x, More(y, d, c)) == More(Glue(x, y), e, c)
  {
    if |y| == 1 {
      assert Last(x) + (y[0] + [c]) == Last(x) + y[0] + [c];
    }
  }

  /** Text without line feeds continues the last piece. */
  lemma {:induction false} PiecesGlue(a: string, b: string)
    requires '\n' !in b
    ensures Pieces(a + b) == Glue(Pieces(a), Pieces(b))
  {
    hide Pieces, Glue, More;
    if b == "" {
      assert a + b == a;
      GlueNothing(Pieces(a));
    } else {
      var front, c := b[..|b| - 1], b[|b| - 1];
      assert b == front + [c] && a + b == a + front + [c] && c in b;
      PiecesGlue(a, front);
      PiecesMore(front, c);
      PiecesMore(a + front, c);
      GlueMore(Pieces(a), Pieces(front), AfterCr(front), AfterCr(a + front), c);
    }
  }

  lemma GlueNothing(x: seq<string>)
    requires |x| > 0
    ensures Glue(x, Pieces("")) == x
  {
    assert Last(x) + "" == Last(x);
  }

  lemma {:induction false} NoLineEnds(s: string)
    requires '\n' !in s
    ensures '\r' !in s ==> Pieces(s) == [s]
    ensures forall p :: p in Pieces(s) ==> '\r' !in p
  {
    if s != "" {
      var front, c := s[..|s| - 1], s[|s| - 1];
      assert s == front + [c] && c in s;
      NoLineEnds(front);
      var all := Pieces(front);
      assert all == Front(all) + [Last(all)];
      assert Last(all) in all;
    }
  }

  lemma {:induction false} SpacePieces(s: string)
    requires AllSpace(s) && '\n' !in s
    ensures forall p :: p in Pieces(s) ==> AllSpace(p)
  {
    hide IsSpace;
    if s != "" {
      var front, c := s[..|s| - 1], s[|s| - 1];
      assert s == front + [c] && c in s;
      SpacePieces(front);
      var all := Pieces(front);
      assert all == Front(all) + [Last(all)];
      assert Last(all) in all;
    }
  }

  /** On a line whose trimmed text has no line end in it, one of the standard's lines holds that text. */
  lemma Around(pre: string, t: string, post: string) returns (before: seq<string>, mid: string, after: seq<string>)
    requires AllSpace(pre) && AllSpace(post) && '\n' !in pre + t + post && '\r' !in t
    ensures Pieces(pre + t + post) == before + [mid] + after
    ensures forall p :: p in before + after ==> AllSpace(p)
    ensures exists w, v :: mid == w + t + v && AllSpace(w) && AllSpace(v)
  {
    hide IsSpace, Pieces;
    assert forall c :: c in pre || c in t || c in post ==> c in pre + t + post;
    PiecesGlue(pre, t);
    PiecesGlue(pre + t, post);
    NoLineEnds(t);
    SpacePieces(pre);
    SpacePieces(post);
    var a, c := Pieces(pre), Pieces(post);
    before, mid, after := Front(a), Last(a) + t + c[0], c[1..];
    assert Glue(a, [t]) == Front(a) + [Last(a) + t];
    assert Last(a) in a && c[0] in c;
    forall p | p in before + after
      ensures AllSpace(p)
    {
      assert p in a || p in c;
    }
  }

  /** White space carries no data. */
  lemma SpaceIsNoData(p: string)
    requires AllSpace(p)
    ensures !IsData(p)
  {
    assert p != "" ==> IsSpace(p[0]) && p[0] != 'd';
  }

  lemma SpacesNoValues(lines: seq<string>)
    requires forall p :: p in lines ==> AllSpace(p)
    ensures Values(lines) == []
  {
    NoValues(lines);
    forall p | p in lines
      ensures !IsData(p)
    {
      SpaceIsNoData(p);
    }
  }

  /** A data line between stretches of white space is read as the parser reads it only without them. */
  lemma DataAround(w: string, t: string, v: string)
    requires AllSpace(w) && AllSpace(v) && Field <= t
    ensures Listed(DataOf(w + t + v)) == [t[6..]] <==> w + t + v == t
  {
    var mid := w + t + v;
    DataLine(mid);
    if w != "" {
      assert mid[0] == w[0] && IsSpace(mid[0]);
    } else {
      assert mid == t + v;
      assert "data:" <= Field <= mid && mid[5] == ' ';
      assert ValueAfter(mid, 4) == mid[6..] == t[6..] + v;
    }
  }

  /** Closing a line adds no data and no line but blank ones. */
  lemma CompleteIs(line: string)
    ensures Values(Complete(line)) == Values(Pieces(line))
    ensures forall p :: p != "" ==> (p in Complete(line) <==> p in Pieces(line))
  {
    hide DataOf, IsData;
    var pieces := Pieces(line);
    assert (line + "\n")[..|line|] == line;
    BlankCarriesNothing();
    if line != "" && line[|line| - 1] == '\r' {
      assert pieces == Front(pieces) + [""];
      assert Values(Front(pieces)) + [] == Values(Front(pieces));
    } else {
      assert Complete(line) == pieces;
    }
  }

  lemma BlankCarriesNothing()
    ensures DataOf("") == None && Payload("") == None && !IsData("")
  {
    DataLine("");
  }

  lemma {:induction false} PlainValues(lines: seq<string>, v: string)
    requires (forall p :: p in lines ==> '\r' !in p) && v in Values(lines)
    ensures '\r' !in v
  {
    if v in Values(Front(lines)) {
      PlainValues(Front(lines), v);
    } else {
      assert Last(lines) in lines;
      PlainValue(Last(lines), v);
    }
  }

  lemma PlainValue(line: string, v: string)
    requires '\r' !in line && DataOf(line) == Some(v)
    ensures '\r' !in v
  {
    DataLine(line);
  }

  /** A line end inside the trimmed text: the standard's values have none in them, the parser's has. */
  lemma LineEndInside(line: string)
    requires '\n' !in line && Field <= Trim(line) && '\r' in Trim(line)
    ensures Trim(line) !in Complete(line) && Values(Complete(line)) != [Trim(line)[6..]]
  {
    hide Pieces, Values, IsSpace;
    var t := Trim(line);
    NoLineEnds(line);
    CompleteIs(line);
    assert t == Field + t[6..] && '\r' !in Field;
    assert '\r' in t[6..];
    if Values(Complete(line)) == [t[6..]] {
      PlainValues(Pieces(line), t[6..]);
    }
  }

  lemma NoLineEndInside(line: string)
    requires '\n' !in line && Field <= Trim(line) && '\r' !in Trim(line)
    ensures Values(Complete(line)) == [Trim(line)[6..]] <==> Trim(line) in Complete(line)
  {
    hide Pieces, Values, IsSpace, DataOf, Trim;
    var t := Trim(line);
    var pre, post := TrimParts(line);
    var before, mid, after := Around(pre, t, post);
    var w, v :| mid == w + t + v && AllSpace(w) && AllSpace(v);
    DataAround(w, t, v);
    CompleteIs(line);
    ValuesConcat(before + [mid], after);
    ValuesConcat(before, [mid]);
    SpacesNoValues(before);
    SpacesNoValues(after);
    OneValue(mid);
    assert [] + Values([mid]) + [] == Values([mid]);
    assert forall p :: p in Pieces(line) <==> p in before || p == mid || p in after;
    NotSpace(t);
  }

  lemma NotSpace(t: string)
    requires Field <= t
    ensures !AllSpace(t) && t != ""
  {
    assert t[0] == 'd' && !IsSpace(t[0]);
  }

  /**
    The exact condition on a line of the parser under which it takes from it what the standard appends to the
    data buffer.
  */
  lemma PayloadIff(line: string)
    requires '\n' !in line
    ensures Listed(Payload(line)) == Values(Complete(line)) <==> Agrees(line)
  {
    hide Pieces, Values, IsSpace, Complete, Trim, IsData;
    var t := Trim(line);
    if Field <= t {
      if '\r' in t {
        LineEndInside(line);
      } else {
        NoLineEndInside(line);
      }
    } else {
      NoValues(Complete(line));
    }
  }

  /** Without a CR the line is read alike if it is no data field, or is one with the space and nothing to trim. */
  lemma PlainAgrees(line: string)
    requires '\n' !in line && '\r' !in line
    ensures Agrees(line) <==> if Field <= Trim(line) then line == Trim(line) else !IsData(line)
  {
    hide Trim, IsSpace, IsData;
    NoLineEnds(line);
    assert (line + "\n")[..|line|] == line;
    assert line != "" ==> line[|line| - 1] in line;
    assert Complete(line) == [line];
  }

  /** Two data fields separated by a lone CR are two lines of the standard's, and one payload of the parser's. */
  lemma LoneCarriageReturn(a: string, b: string)
    requires b != "" && !IsSpace(b[|b| - 1])
    requires forall c :: c in a + b ==> !EndsLine(c)
    ensures var line := Field + a + "\r" + Field + b;
      && Payload(line) == Some(a + "\r" + Field + b) && Values(Complete(line)) == [a, b] && !Agrees(line)
  {
    hide Complete, IsSpace, Pieces, Values, DataOf, Trim;
    var p, q := Field + a, Field + b;
    var line := p + "\r" + q;
    assert line == Field + a + "\r" + Field + b;
    assert forall c :: c in a || c in b ==> c in a + b;
    LonePieces(p, q);
    CompleteIs(line);
    TwoValues(a, b);
    TrimNothing(line);
    assert line[6..] == a + "\r" + Field + b && Field <= line;
    PayloadIff(line);
  }

  lemma LonePieces(p: string, q: string)
    requires forall c :: c in p || c in q ==> !EndsLine(c)
    ensures Pieces(p + "\r" + q) == [p, q]
  {
    hide Pieces;
    NoLineEnds(p);
    NoLineEnds(q);
    PiecesMore(p, '\r');
    PiecesGlue(p + "\r", q);
    assert "" + q == q && [p] + [""] == [p, ""];
  }

  lemma TwoValues(a: string, b: string)
    ensures Values([Field + a, Field + b]) == [a, b]
  {
    hide IsData;
    DataLine(Field + a);
    DataLine(Field + b);
    FieldValue(a);
    FieldValue(b);
    OneValue(Field + a);
    assert Front([Field + a, Field + b]) == [Field + a];
  }

  lemma FieldValue(a: string)
    ensures "data:" <= Field + a && ValueAfter(Field + a, 4) == a && (Field + a)[6..] == a
  {
    assert "data:" <= Field;
  }

  lemma TrimNothing(line: string)
    requires line != "" && line[0] == 'd' && !IsSpace(line[|line| - 1])
    ensures Trim(line) == line
  {
    assert !IsSpace('d');
  }

  // ---------------------------------------------------------------- the stream

  function JoinLines(values: seq<string>): string
    requires values != []
  {
    if |values| == 1 then values[0] else JoinLines(values[..|values| - 1]) + "\n" + values[|values| - 1]
  }

  /** The data of the events that the standard dispatches: one for each blank line with data buffered before it. */
  function Dispatched(lines: seq<string>, buffer: seq<string>): seq<string> {
    if lines == [] then []
    else if lines[0] == "" then (if buffer == [] then [] else [JoinLines(buffer)]) + Dispatched(lines[1..], [])
    else
      match DataOf(lines[0])
      case Some(v) => Dispatched(lines[1..], buffer + [v])
      case None => Dispatched(lines[1..], buffer)
  }

  /** The payloads the parser takes from its lines, in order. */
  function Payloads(lines: seq<string>): seq<string> {
    if lines == [] then [] else Payloads(Front(lines)) + Listed(Payload(Last(lines)))
  }

  const EndMarker := "[DONE]"

  /** The values up to the first end marker and with it, or all of them. */
  function UpTo(values: seq<string>): seq<string> {
    if values == [] then []
    else if values[0] == EndMarker then [EndMarker]
    else [values[0]] + UpTo(values[1..])
  }

  /**
    Up to the event that is an end marker every event has one data line; if there is none, no data is left after
    the last blank line.
  */
  predicate OnePerEvent(lines: seq<string>, buffered: Option<string>) {
    if lines == [] then buffered.None?
    else if lines[0] == "" then buffered == Some(EndMarker) || OnePerEvent(lines[1..], None)
    else
      match DataOf(lines[0])
      case Some(v) => buffered.None? && OnePerEvent(lines[1..], Some(v))
      case None => OnePerEvent(lines[1..], buffered)
  }

  lemma {:induction false} ValuesFirst(lines: seq<string>)
    requires lines != []
    ensures Values(lines) == Listed(DataOf(lines[0])) + Values(lines[1..])
  {
    ValuesConcat([lines[0]], lines[1..]);
    assert [lines[0]] + lines[1..] == lines;
    OneValue(lines[0]);
  }

  lemma {:induction false} UpToConcat(a: seq<string>, b: seq<string>)
    ensures UpTo(a + b) == if EndMarker in a then UpTo(a) else a + UpTo(b)
  {
    if a == [] {
      assert a + b == b && [] + UpTo(b) == UpTo(b);
    } else {
      assert a == [a[0]] + a[1..] && (a + b)[1..] == a[1..] + b;
      UpToConcat(a[1..], b);
    }
  }

  lemma UpToFirst(x: string, rest: seq<string>)
    ensures UpTo([x] + rest) == if x == EndMarker then [x] else [x] + UpTo(rest)
  {
    assert ([x] + rest)[1..] == rest;
  }

  lemma {:induction false} JoinLonger(values: seq<string>)
    requires |values| > 1
    ensures |JoinLines(values)| > |values[0]|
  {
    if |values| > 2 {
      JoinLonger(values[..|values| - 1]);
    }
  }

  /** With two values buffered, the next event is longer than the first of them. */
  lemma {:induction false} LongerEvent(lines: seq<string>, buffer: seq<string>)
    requires |buffer| > 1
    ensures Dispatched(lines, buffer) == [] || |Dispatched(lines, buffer)[0]| > |buffer[0]|
  {
    hide DataOf, JoinLines;
    if lines != [] {
      if lines[0] == "" {
        JoinLonger(buffer);
      } else if DataOf(lines[0]).Some? {
        LongerEvent(lines[1..], buffer + [DataOf(lines[0]).value]);
      } else {
        LongerEvent(lines[1..], buffer);
      }
    }
  }

  /** The standard's events are its data values, up to the end marker, exactly when each has a single one. */
  lemma {:induction false} EventsIff(lines: seq<string>, buffer: seq<string>)
    requires |buffer| <= 1
    ensures UpTo(Dispatched(lines, buffer)) == UpTo(buffer + Values(lines)) <==>
      OnePerEvent(lines, if buffer == [] then None else Some(buffer[0]))
  {
    hide DataOf, Values, UpTo;
    if lines == [] {
      NothingLeft(buffer);
    } else {
      var line, rest := lines[0], lines[1..];
      ValuesFirst(lines);
      BlankCarriesNothing();
      if line == "" {
        EventsIff(rest, []);
        assert Values(lines) == Values(rest) by { assert [] + Values(rest) == Values(rest); }
        assert [] + Values(rest) == Values(rest) && [] + Dispatched(rest, []) == Dispatched(rest, []);
        if buffer != [] {
          assert buffer == [buffer[0]];
          UpToFirst(buffer[0], Dispatched(rest, []));
          UpToFirst(buffer[0], Values(rest));
          Cancel(buffer[0], UpTo(Dispatched(rest, [])), UpTo(Values(rest)));
        }
      } else if DataOf(line).Some? {
        var v := DataOf(line).value;
        assert [v] + Values(rest) == Values(lines);
        if buffer == [] {
          assert [] + [v] == [v] && [] + Values(lines) == Values(lines);
          EventsIff(rest, [v]);
        } else {
          assert buffer == [buffer[0]];
          LongerEvent(rest, buffer + [v]);
          UpToHead(Dispatched(rest, buffer + [v]), buffer[0], Values(lines));
        }
      } else {
        assert [] + Values(rest) == Values(rest);
        EventsIff(rest, buffer);
      }
    }
  }

  lemma NothingLeft(buffer: seq<string>)
    requires |buffer| <= 1
    ensures Values([]) == [] && buffer + [] == buffer && UpTo([]) == []
    ensures UpTo(buffer) == [] <==> buffer == []
  {
  }

  lemma UpToHead(a: seq<string>, x: string, rest: seq<string>)
    requires a == [] || |a[0]| > |x|
    ensures UpTo(a) != UpTo([x] + rest)
  {
    UpToFirst(x, rest);
    if a != [] {
      assert UpTo(a)[0] == a[0];
    }
  }

  lemma Cancel(x: string, a: seq<string>, b: seq<string>)
    ensures [x] + a == [x] + b <==> a == b
  {
    assert ([x] + a)[1..] == a && ([x] + b)[1..] == b;
  }

  // ---------------------------------------------------------------- a whole text

  /** The lines up to the first whose payload is the end marker are read alike. */
  predicate AgreeUpToEnd(lines: seq<string>) {
    lines != [] ==> AgreeUpToEnd(Front(lines)) && (EndMarker !in Payloads(Front(lines)) ==> Agrees(Last(lines)))
  }

  /**
    The parser's lines up to the end marker are read alike; if there is none, the standard reads no data in the
    unterminated rest.
  */
  predicate TextAgrees(text: string) {
    && AgreeUpToEnd(Lines(text))
    && (EndMarker !in Payloads(Lines(text)) ==> forall p :: p in StandardLines(Tail(text)) ==> !IsData(p))
  }

  lemma {:induction false} LinesAgree(lines: seq<string>)
    requires (forall line :: line in lines ==> '\n' !in line) && AgreeUpToEnd(lines)
    ensures UpTo(Values(CompleteAll(lines))) == UpTo(Payloads(lines))
    ensures EndMarker in Payloads(lines) <==> EndMarker in Values(CompleteAll(lines))
    ensures EndMarker !in Payloads(lines) ==> Values(CompleteAll(lines)) == Payloads(lines)
  {
    hide Agrees, Payload, DataOf, Complete, Values, UpTo;
    if lines == [] {
      NoValues([]);
    } else {
      var front, last := Front(lines), Last(lines);
      assert lines == front + [last] && last in lines;
      LinesAgree(front);
      ValuesConcat(CompleteAll(front), Complete(last));
      UpToConcat(Values(CompleteAll(front)), Values(Complete(last)));
      UpToConcat(Payloads(front), Listed(Payload(last)));
      if EndMarker !in Payloads(front) {
        PayloadIff(last);
      }
    }
  }

  /**
    On a text read alike, the payloads the parser takes up to the end marker are the data of the events that the
    standard dispatches up to it if and only if every one of those events has a single data line, and the last
    of them is closed by a blank line.
  */
  lemma StandardIff(text: string)
    requires TextAgrees(text)
    ensures UpTo(Dispatched(StandardLines(text), [])) == UpTo(Payloads(Lines(text))) <==> OnePerEvent(StandardLines(text), None)
  {
    hide AgreeUpToEnd, Payload, DataOf, IsData, Pieces, Values, Dispatched, OnePerEvent, Payloads, CompleteAll, Split, UpTo;
    TextLines(text);
    SplitUnsplit(text);
    assert forall line :: line in Lines(text) ==> '\n' !in line;
    LinesAgree(Lines(text));
    var values, rest := Values(CompleteAll(Lines(text))), Values(StandardLines(Tail(text)));
    ValuesConcat(CompleteAll(Lines(text)), StandardLines(Tail(text)));
    UpToConcat(values, rest);
    NoValues(StandardLines(Tail(text)));
    EventsIff(StandardLines(text), []);
    assert values + [] == values && [] + Values(StandardLines(text)) == Values(StandardLines(text));
  }

  /** What the payloads parse to. */
  function Parsed<E>(payloads: seq<string>, parse: string -> Option<E>): seq<E> {
    if payloads == [] then []
    else
      Parsed(Front(payloads), parse) +
      (if Last(payloads) == EndMarker then []
       else
         match parse(Last(payloads))
         case Some(e) => [e]
         case None => [])
  }

  /** The parser's events are what the payloads up to the end marker parse to, and it stops there if there is one. */
  lemma {:induction false} EventsAre<E>(lines: seq<string>, parse: string -> Option<E>)
    ensures EventsOf(lines, parse) == Events(Parsed(UpTo(Payloads(lines)), parse), EndMarker in Payloads(lines))
  {
    hide Payload, UpTo;
    if lines == [] {
      NothingLeft([]);
    } else {
      var front, last := Front(lines), Last(lines);
      EventsAre(front, parse);
      UpToConcat(Payloads(front), Listed(Payload(last)));
      if EndMarker !in Payloads(front) {
        UpToConcat(Payloads(front), []);
        NothingLeft(Listed(Payload(last)));
        assert Payloads(front) + [] == Payloads(front);
        ParsedMore(Payloads(front), Payload(last), parse);
      }
    }
  }

  lemma ParsedMore<E>(payloads: seq<string>, v: Option<string>, parse: string -> Option<E>)
    ensures UpTo(Listed(v)) == Listed(v)
    ensures Parsed(payloads + Listed(v), parse) == Parsed(payloads, parse) +
      (if v.None? || v.value == EndMarker then []
       else
         match parse(v.value)
         case Some(e) => [e]
         case None => [])
  {
    var more := payloads + Listed(v);
    if v.Some? {
      assert Front(more) == payloads && Last(more) == v.value;
      assert [v.value][1..] == [];
    } else {
      assert more == payloads && Parsed(payloads, parse) + [] == Parsed(payloads, parse);
    }
  }
}

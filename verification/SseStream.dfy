/**
  The incremental line parser of src/compute/openai-streaming.adapter.ts: chunks of text come in,
  events go out. Whatever the cuts between the chunks, the events are those of the whole text.

  The parser of a data payload is a parameter: it yields an event, or None when the payload is not
  valid JSON or not a valid stream chunk.
*/
module SseStream {
  import opened Wrappers

  // ---------------------------------------------------------------- lines

  /** text.split("\n"). */
  function Split(s: string): (lines: seq<string>)
    ensures |lines| > 0
  {
    if s == "" then [""] else Extend(Split(s[..|s| - 1]), s[|s| - 1])
  }

  /** The lines once a character has arrived after them. */
  function Extend(lines: seq<string>, c: char): (more: seq<string>)
    requires |lines| > 0
    ensures |more| > 0
  {
    if c == '\n' then lines + [""] else Front(lines) + [Last(lines) + [c]]
  }

  function Front(lines: seq<string>): seq<string>
    requires |lines| > 0
  {
    lines[..|lines| - 1]
  }

  function Last(lines: seq<string>): string
    requires |lines| > 0
  {
    lines[|lines| - 1]
  }

  /** The newline-terminated lines of a text, and the unterminated rest. */
  function Lines(s: string): seq<string> { Front(Split(s)) }

  function Tail(s: string): string { Last(Split(s)) }

  function Join(chunks: seq<string>): string {
    if chunks == [] then "" else Join(chunks[..|chunks| - 1]) + chunks[|chunks| - 1]
  }

  /** lines.join("\n"). */
  function Unsplit(lines: seq<string>): string
    requires |lines| > 0
  {
    if |lines| == 1 then lines[0] else Unsplit(Front(lines)) + "\n" + Last(lines)
  }

  lemma UnsplitExtend(lines: seq<string>, c: char)
    requires |lines| > 0
    ensures Unsplit(Extend(lines, c)) == Unsplit(lines) + [c]
  {
    if c == '\n' {
      assert Front(lines + [""]) == lines;
    } else {
      assert Front(Extend(lines, c)) == Front(lines);
    }
  }

  /** Splitting and joining are inverse, and no line holds a newline. */
  lemma {:induction false} SplitUnsplit(s: string)
    ensures Unsplit(Split(s)) == s
    ensures forall k :: 0 <= k < |Split(s)| ==> '\n' !in Split(s)[k]
  {
    hide Unsplit, Extend;
    if s == "" {
      UnsplitOne("");
    } else {
      var front, c := s[..|s| - 1], s[|s| - 1];
      SplitUnsplit(front);
      UnsplitExtend(Split(front), c);
      ExtendPlain(Split(front), c);
      assert s == front + [c];
    }
  }

  lemma UnsplitOne(line: string)
    ensures Unsplit([line]) == line
  {
  }

  lemma ExtendPlain(lines: seq<string>, c: char)
    requires |lines| > 0 && forall k :: 0 <= k < |lines| ==> '\n' !in lines[k]
    ensures forall k :: 0 <= k < |Extend(lines, c)| ==> '\n' !in Extend(lines, c)[k]
  {
  }

  lemma {:induction false} NoNewline(s: string)
    requires '\n' !in s
    ensures Split(s) == [s]
  {
    if s != "" {
      NoNewline(s[..|s| - 1]);
      assert s == s[..|s| - 1] + [s[|s| - 1]];
    }
  }

  lemma ExtendAfter(lines: seq<string>, more: seq<string>, c: char)
    requires |more| > 0
    ensures Extend(lines + more, c) == lines + Extend(more, c)
  {
    assert Front(lines + more) == lines + Front(more);
  }

  /** Splitting more text resplits only the unterminated rest. */
  lemma {:induction false} SplitAppend(a: string, b: string)
    ensures Split(a + b) == Lines(a) + Split(Tail(a) + b)
  {
    if b == "" {
      SplitUnsplit(a);
      NoNewline(Tail(a));
      assert a + b == a && Tail(a) + b == Tail(a);
    } else {
      var front, c := b[..|b| - 1], b[|b| - 1];
      SplitAppend(a, front);
      assert (a + b)[..|a + b| - 1] == a + front;
      assert (Tail(a) + b)[..|Tail(a) + b| - 1] == Tail(a) + front;
      ExtendAfter(Lines(a), Split(Tail(a) + front), c);
    }
  }

  lemma LinesAppend(a: string, b: string)
    ensures Lines(a + b) == Lines(a) + Lines(Tail(a) + b)
    ensures Tail(a + b) == Tail(Tail(a) + b)
  {
    SplitAppend(a, b);
  }

  // ---------------------------------------------------------------- one line

  /** The white space that String.trim removes. */
  predicate IsSpace(c: char) {
    var u := c as int;
    || 0x9 <= u <= 0xD || u == 0x20 || u == 0xA0 || u == 0x1680 || 0x2000 <= u <= 0x200A
    || u == 0x2028 || u == 0x2029 || u == 0x202F || u == 0x205F || u == 0x3000 || u == 0xFEFF
  }

  /** Those characters one by one. */
  lemma SpacesAre(c: char)
    ensures IsSpace(c) <==> c as int in [
      0x9, 0xA, 0xB, 0xC, 0xD, 0x20, 0xA0, 0x1680, 0x2000, 0x2001, 0x2002, 0x2003, 0x2004, 0x2005, 0x2006, 0x2007,
      0x2008, 0x2009, 0x200A, 0x2028, 0x2029, 0x202F, 0x205F, 0x3000, 0xFEFF]
  {
  }

  function TrimEnd(s: string): string {
    if s != "" && IsSpace(s[|s| - 1]) then TrimEnd(s[..|s| - 1]) else s
  }

  function TrimStart(s: string): string {
    if s != "" && IsSpace(s[0]) then TrimStart(s[1..]) else s
  }

  function Trim(s: string): string { TrimStart(TrimEnd(s)) }

  datatype Verdict<+E> = Skip | Done | Emit(event: E)

  const Field := "data: "

  /** The payload of a data line. */
  function Payload(line: string): Option<string> {
    var trimmed := Trim(line);
    if trimmed == "" || trimmed[0] == ':' then None
    else if Field <= trimmed then Some(trimmed[6..])
    else None
  }

  function Classify<E>(line: string, parse: string -> Option<E>): Verdict<E> {
    match Payload(line)
    case None => Skip
    case Some(data) =>
      if data == "[DONE]" then Done
      else
        match parse(data)
        case Some(e) => Emit(e)
        case None => Skip
  }

  /** The events of the lines before the first end marker, and whether there is one. */
  datatype Events<+E> = Events(events: seq<E>, done: bool)

  function EventsOf<E>(lines: seq<string>, parse: string -> Option<E>): Events<E> {
    if lines == [] then Events([], false)
    else
      var before := EventsOf(lines[..|lines| - 1], parse);
      if before.done then before
      else
        match Classify(lines[|lines| - 1], parse)
        case Skip => before
        case Done => Events(before.events, true)
        case Emit(e) => Events(before.events + [e], false)
  }

  /** What the stream yields on a whole text. */
  function Whole<E>(text: string, parse: string -> Option<E>): Events<E> { EventsOf(Lines(text), parse) }

  lemma {:induction false} EventsConcat<E>(a: seq<string>, b: seq<string>, parse: string -> Option<E>)
    ensures EventsOf(a + b, parse) ==
      if EventsOf(a, parse).done then EventsOf(a, parse)
      else Events(EventsOf(a, parse).events + EventsOf(b, parse).events, EventsOf(b, parse).done)
  {
    hide Classify;
    if b == [] {
      assert a + b == a;
    } else {
      EventsConcat(a, b[..|b| - 1], parse);
      assert (a + b)[..|a + b| - 1] == a + b[..|b| - 1];
    }
  }

  // ---------------------------------------------------------------- the stream

  /** The events a caller receives from the chunks, in order; whatever follows the end marker is not read. */
  method ExecuteStream<E>(chunks: seq<string>, parse: string -> Option<E>) returns (events: seq<E>, done: bool)
    ensures Events(events, done) == Whole(Join(chunks), parse)
  {
    events := [];
    var buffer := "";
    for k := 0 to |chunks|
      invariant buffer == Tail(Join(chunks[..k]))
      invariant Events(events, false) == Whole(Join(chunks[..k]), parse)
    {
      buffer := buffer + chunks[k];
      var lines := Split(buffer);
      var stop;
      events, stop := ProcessLines(Front(lines), events, parse);
      MoreText(chunks, k, parse);
      if stop {
        RestIgnored(chunks, k + 1, parse);
        return events, true;
      }
      buffer := Last(lines);
    }
    assert chunks[..|chunks|] == chunks;
    done := false;
  }

  /** The loop over the complete lines of the buffer. */
  method ProcessLines<E>(lines: seq<string>, received: seq<E>, parse: string -> Option<E>)
    returns (events: seq<E>, done: bool)
    ensures done == EventsOf(lines, parse).done && events == received + EventsOf(lines, parse).events
  {
    events := received;
    for k := 0 to |lines|
      invariant !EventsOf(lines[..k], parse).done
      invariant events == received + EventsOf(lines[..k], parse).events
    {
      LinesSoFar(lines, k, parse);
      match Classify(lines[k], parse) {
        case Skip =>
        case Done => return events, true;
        case Emit(e) => events := events + [e];
      }
    }
    assert lines[..|lines|] == lines;
    done := false;
  }

  lemma LinesSoFar<E>(lines: seq<string>, k: nat, parse: string -> Option<E>)
    requires k < |lines|
    ensures EventsOf(lines[..k + 1], parse) ==
      var before := EventsOf(lines[..k], parse);
      if before.done then before
      else
        match Classify(lines[k], parse)
        case Skip => before
        case Done => Events(before.events, true)
        case Emit(e) => Events(before.events + [e], false)
    ensures EventsOf(lines[..k + 1], parse).done ==> EventsOf(lines, parse) == EventsOf(lines[..k + 1], parse)
  {
    hide Classify, EventsOf;
    LastLine(lines[..k + 1], parse);
    assert lines[..k + 1][..k] == lines[..k] && lines[..k + 1][k] == lines[k];
    EventsConcat(lines[..k + 1], lines[k + 1..], parse);
    assert lines[..k + 1] + lines[k + 1..] == lines;
  }

  lemma LastLine<E>(lines: seq<string>, parse: string -> Option<E>)
    requires lines != []
    ensures EventsOf(lines, parse) ==
      var before := EventsOf(lines[..|lines| - 1], parse);
      if before.done then before
      else
        match Classify(lines[|lines| - 1], parse)
        case Skip => before
        case Done => Events(before.events, true)
        case Emit(e) => Events(before.events + [e], false)
  {
  }

  /** The text after one more chunk. */
  lemma MoreText<E>(chunks: seq<string>, k: nat, parse: string -> Option<E>)
    requires k < |chunks| && !Whole(Join(chunks[..k]), parse).done
    ensures var text := Join(chunks[..k]);
      var more := EventsOf(Lines(Tail(text) + chunks[k]), parse);
      && Tail(Join(chunks[..k + 1])) == Tail(Tail(text) + chunks[k])
      && Whole(Join(chunks[..k + 1]), parse) == Events(Whole(text, parse).events + more.events, more.done)
  {
    var text := Join(chunks[..k]);
    assert chunks[..k + 1][..k] == chunks[..k];
    assert Join(chunks[..k + 1]) == text + chunks[k];
    hide Join, Split, EventsOf, Lines, Tail;
    LinesAppend(text, chunks[k]);
    EventsConcat(Lines(text), Lines(Tail(text) + chunks[k]), parse);
  }

  /** Once the end marker has arrived, the chunks that follow change nothing. */
  lemma RestIgnored<E>(chunks: seq<string>, k: nat, parse: string -> Option<E>)
    requires k <= |chunks| && Whole(Join(chunks[..k]), parse).done
    ensures Whole(Join(chunks), parse) == Whole(Join(chunks[..k]), parse)
  {
    hide Join, Whole;
    JoinSplit(chunks, k);
    PrefixEvents(Join(chunks[..k]), Join(chunks[k..]), parse);
  }

  lemma {:induction false} JoinSplit(chunks: seq<string>, k: nat)
    requires k <= |chunks|
    ensures Join(chunks) == Join(chunks[..k]) + Join(chunks[k..])
  {
    if k == |chunks| {
      assert chunks[..k] == chunks && chunks[k..] == [];
    } else {
      JoinSplit(chunks[..|chunks| - 1], k);
      assert chunks[..|chunks| - 1][..k] == chunks[..k];
      assert chunks[..|chunks| - 1][k..] == chunks[k..][..|chunks[k..]| - 1];
    }
  }

  // ---------------------------------------------------------------- properties of the whole text

  /** More text never takes events back, and after the end marker it adds none. */
  lemma PrefixEvents<E>(text: string, more: string, parse: string -> Option<E>)
    ensures Whole(text, parse).events <= Whole(text + more, parse).events
    ensures Whole(text, parse).done ==> Whole(text + more, parse) == Whole(text, parse)
  {
    LinesAppend(text, more);
    EventsConcat(Lines(text), Lines(Tail(text) + more), parse);
  }

  /** A tail without a newline yields nothing. */
  lemma TailIgnored<E>(text: string, tail: string, parse: string -> Option<E>)
    requires '\n' !in tail
    ensures Whole(text + tail, parse) == Whole(text, parse)
  {
    SplitUnsplit(text);
    LinesAppend(text, tail);
    NoNewline(Tail(text) + tail);
    assert Lines(text + tail) == Lines(text);
  }

  /** The events of the lines that carry one, ignoring end markers. */
  function Emitted<E>(lines: seq<string>, parse: string -> Option<E>): seq<E> {
    if lines == [] then []
    else
      var rest := Emitted(lines[1..], parse);
      match Classify(lines[0], parse)
      case Emit(e) => [e] + rest
      case _ => rest
  }

  /** Up to the first end marker the stream is the list of what each line carries. */
  lemma {:induction false} UpToDone<E>(lines: seq<string>, k: nat, parse: string -> Option<E>)
    requires k <= |lines|
    requires forall j :: 0 <= j < k ==> Classify(lines[j], parse) != Done
    requires k < |lines| ==> Classify(lines[k], parse) == Done
    ensures EventsOf(lines, parse) == Events(Emitted(lines[..k], parse), k < |lines|)
  {
    hide Classify;
    if k == 0 {
      if lines != [] {
        LinesSoFar(lines, 0, parse);
      }
    } else {
      UpToDone(lines[1..], k - 1, parse);
      EventsConcat([lines[0]], lines[1..], parse);
      assert [lines[0]] + lines[1..] == lines;
      assert [lines[0]][..0] == [];
      assert lines[..k][1..] == lines[1..][..k - 1];
    }
  }

  /** A line may end in CR LF as well as in LF. */
  lemma CarriageReturn<E>(line: string, parse: string -> Option<E>)
    ensures Classify(line + "\r", parse) == Classify(line, parse)
  {
    assert (line + "\r")[..|line + "\r"| - 1] == line;
  }
}

/** The recorder log of src/providers/recorder.ts as bytes: newline-terminated lines and a tail. */
module RecorderLog {
  import opened Common

  type Byte = b: int | 0 <= b < 0x100

  const NEWLINE: Byte := 0x0A
  const MAX_PENDING_RECORD_BYTES := 4 * 1024 * 1024

  /** A `RecordableInboundEnvelope`: the texts as given, and whether `raw` is an object whose direction is
      "outbound". */
  datatype Event = Event(
    author: string,
    id: string,
    provider: string,
    rawOutbound: bool,
    recordedDirection: Option<string>,
    sentAt: string,
    text: string,
    threadId: string)

  /** `recordedDirectionOf` */
  function DirectionOf(e: Event): string {
    if e.recordedDirection.Some? && e.recordedDirection.value != "" then e.recordedDirection.value
    else if e.rawOutbound then "outbound"
    else "inbound"
  }

  /** What `parseRecordedEnvelope` demands of an event that is read back; `recordedAt` is stamped. */
  predicate WellFormed(e: Event) {
    && e.author in {"assistant", "system", "user"}
    && (e.recordedDirection.Some? ==> e.recordedDirection.value in {"inbound", "outbound"})
    && e.id != "" && e.provider != "" && e.sentAt != "" && e.threadId != ""
  }

  predicate AllWellFormed(events: seq<Event>) {
    forall e <- events :: WellFormed(e)
  }

  /** `recordIdentity` */
  datatype Key = Key(provider: string, threadId: string, id: string, direction: string)

  function KeyOf(e: Event): Key {
    Key(e.provider, e.threadId, e.id, DirectionOf(e))
  }

  /** The direction is the recorded one, if one was given; otherwise that of the raw payload. */
  predicate HasDirection(e: Event, direction: string) {
    if e.recordedDirection in {None, Some("")} then (direction == "outbound" && e.rawOutbound) ||
      (direction == "inbound" && !e.rawOutbound)
    else e.recordedDirection == Some(direction)
  }

  lemma DirectionIsKnown(e: Event, direction: string)
    ensures HasDirection(e, direction) <==> DirectionOf(e) == direction
  {
  }

  /** Two events are recorded as one: they agree in provider, thread, id and direction. */
  ghost predicate SameRecord(a: Event, b: Event) {
    && a.provider == b.provider && a.threadId == b.threadId && a.id == b.id
    && forall direction :: HasDirection(a, direction) <==> HasDirection(b, direction)
  }

  lemma SameKeyIff(a: Event, b: Event)
    ensures KeyOf(a) == KeyOf(b) <==> SameRecord(a, b)
  {
    DirectionIsKnown(a, DirectionOf(a));
    DirectionIsKnown(b, DirectionOf(a));
    forall direction ensures HasDirection(a, direction) <==> DirectionOf(a) == direction {
      DirectionIsKnown(a, direction);
    }
    forall direction ensures HasDirection(b, direction) <==> DirectionOf(b) == direction {
      DirectionIsKnown(b, direction);
    }
  }

  function KeysOf(events: seq<Event>): seq<Key> {
    seq(|events|, i requires 0 <= i < |events| => KeyOf(events[i]))
  }

  /** What `parseRecordedLine` does with a line: its events, a SyntaxError of JSON.parse, or another error. */
  datatype Parsed = Events(events: seq<Event>) | SyntaxError | BadEnvelope

  datatype Problem = Syntax | Envelope | TooLong

  datatype Outcome = Ok(events: seq<Event>) | Failed(problem: Problem)

  /** JSON text as the recorder uses it: `parse` of a line, `blank` for `line.trim()` being empty,
      `encode` for the text of a batch. */
  datatype Codec = Codec(parse: seq<Byte> -> Parsed, blank: seq<Byte> -> bool, encode: seq<Event> -> seq<Byte>) {
    /** White space is no JSON text. */
    ghost predicate BlanksAreNoText() {
      blank([]) && forall l :: blank(l) ==> parse(l).SyntaxError?
    }

    /** A batch line is one JSON object, so no proper prefix of it is a JSON text; it is read back, and each of
        its events is checked. */
    ghost predicate Lawful() {
      && BlanksAreNoText()
      && (forall es :: NEWLINE !in encode(es) && !blank(encode(es)))
      && (forall es :: parse(encode(es)) == if AllWellFormed(es) then Events(es) else BadEnvelope)
      && (forall es, k | 0 <= k < |encode(es)| :: parse(encode(es)[..k]).SyntaxError?)
    }
  }

  // ---------------------------------------------------------------------------------------------
  // Lines and tail

  /** What follows the last newline. */
  function Tail(b: seq<Byte>): (tail: seq<Byte>)
    ensures |tail| <= |b|
  {
    if b == [] || b[|b| - 1] == NEWLINE then [] else Tail(b[..|b| - 1]) + [b[|b| - 1]]
  }

  /** The lines that end with a newline, without it. */
  function Lines(b: seq<Byte>): seq<seq<Byte>> {
    if b == [] then []
    else if b[|b| - 1] == NEWLINE then Lines(b[..|b| - 1]) + [Tail(b[..|b| - 1])]
    else Lines(b[..|b| - 1])
  }

  lemma {:induction false} TailShape(b: seq<Byte>)
    ensures var k := |b| - |Tail(b)|;
      && Tail(b) == b[k..]
      && (forall i | k <= i < |b| :: b[i] != NEWLINE)
      && (k > 0 ==> b[k - 1] == 0x0A)
  {
    if b != [] && b[|b| - 1] != NEWLINE {
      TailShape(b[..|b| - 1]);
    }
  }

  lemma TailIsUnique(b: seq<Byte>, k: nat)
    requires k <= |b| && (forall i | k <= i < |b| :: b[i] != NEWLINE) && (k > 0 ==> b[k - 1] == NEWLINE)
    ensures Tail(b) == b[k..]
  {
    TailShape(b);
  }

  /** Reading on only looks at the tail. */
  lemma {:induction false} LinesOfConcat(a: seq<Byte>, b: seq<Byte>)
    ensures Lines(a + b) == Lines(a) + Lines(Tail(a) + b)
    ensures Tail(a + b) == Tail(Tail(a) + b)
  {
    hide Lines, Tail;
    if b == [] {
      assert a + b == a && Tail(a) + b == Tail(a);
      TailShape(a);
      NoLines(Tail(a));
    } else {
      var init, last := b[..|b| - 1], b[|b| - 1];
      LinesOfConcat(a, init);
      assert a + b == (a + init) + [last] by { assert b == init + [last]; }
      assert Tail(a) + b == (Tail(a) + init) + [last] by { assert b == init + [last]; }
      SameGrowth(Lines(a), a + init, Tail(a) + init, last);
    }
  }

  lemma SameGrowth(before: seq<seq<Byte>>, x: seq<Byte>, y: seq<Byte>, c: Byte)
    requires Lines(x) == before + Lines(y) && Tail(x) == Tail(y)
    ensures Lines(x + [c]) == before + Lines(y + [c]) && Tail(x + [c]) == Tail(y + [c])
  {
    LinesSnoc(x, c);
    LinesSnoc(y, c);
    hide Lines, Tail;
    assert before + (Lines(y) + [Tail(y)]) == before + Lines(y) + [Tail(y)];
  }

  lemma LinesSnoc(b: seq<Byte>, c: Byte)
    ensures Lines(b + [c]) == if c == NEWLINE then Lines(b) + [Tail(b)] else Lines(b)
    ensures Tail(b + [c]) == if c == NEWLINE then [] else Tail(b) + [c]
  {
    assert (b + [c])[..|b + [c]| - 1] == b;
  }

  lemma {:induction false} NoLines(b: seq<Byte>)
    requires forall i | 0 <= i < |b| :: b[i] != NEWLINE
    ensures Lines(b) == [] && Tail(b) == b
  {
    if b != [] {
      NoLines(b[..|b| - 1]);
    }
  }

  lemma LineAppended(a: seq<Byte>, line: seq<Byte>)
    requires Tail(a) == [] && NEWLINE !in line
    ensures Lines(a + line + [NEWLINE]) == Lines(a) + [line] && Tail(a + line + [NEWLINE]) == []
    ensures Lines(a + line) == Lines(a) && Tail(a + line) == line
  {
    LinesOfConcat(a, line);
    assert [] + line == line;
    NoLines(line);
    LinesSnoc(a + line, NEWLINE);
  }

  // ---------------------------------------------------------------------------------------------
  // Parsing

  function ParseLine(codec: Codec, line: seq<Byte>): Outcome {
    if codec.blank(line) then Ok([])
    else match codec.parse(line)
      case Events(events) => Ok(events)
      case SyntaxError => Failed(Syntax)
      case BadEnvelope => Failed(Envelope)
  }

  function Then(first: Outcome, second: Outcome): Outcome {
    if first.Failed? then first else if second.Failed? then second else Ok(first.events + second.events)
  }

  /** Lines in order, up to the first that fails. */
  function ParseLines(codec: Codec, lines: seq<seq<Byte>>): (r: Outcome)
    ensures r != Failed(TooLong)
  {
    if lines == [] then Ok([])
    else Then(ParseLines(codec, lines[..|lines| - 1]), ParseLine(codec, lines[|lines| - 1]))
  }

  lemma {:induction false} ParseConcat(codec: Codec, a: seq<seq<Byte>>, b: seq<seq<Byte>>)
    ensures ParseLines(codec, a + b) == Then(ParseLines(codec, a), ParseLines(codec, b))
  {
    if b == [] {
      assert a + b == a;
    } else {
      var n := |b| - 1;
      ParseConcat(codec, a, b[..n]);
      assert (a + b)[..|a + b| - 1] == a + b[..n];
      var x, y, z := ParseLines(codec, a), ParseLines(codec, b[..n]), ParseLine(codec, b[n]);
      if x.Ok? && y.Ok? && z.Ok? {
        assert x.events + y.events + z.events == x.events + (y.events + z.events);
      }
    }
  }

  lemma OneLine(codec: Codec, line: seq<Byte>)
    ensures ParseLines(codec, [line]) == ParseLine(codec, line)
  {
    var lines := [line];
    assert lines[..0] == [];
  }

  /** The completed lines of a log. */
  function Completed(codec: Codec, b: seq<Byte>): Outcome {
    ParseLines(codec, Lines(b))
  }

  lemma CompletedConcat(codec: Codec, a: seq<Byte>, b: seq<Byte>)
    ensures Completed(codec, a + b) == Then(Completed(codec, a), Completed(codec, Tail(a) + b))
  {
    LinesOfConcat(a, b);
    ParseConcat(codec, Lines(a), Lines(Tail(a) + b));
  }

  /** The tail of a one-shot read: a syntactically partial last line is ignored. */
  function ParseTail(codec: Codec, tail: seq<Byte>): Outcome {
    if ParseLine(codec, tail) == Failed(Syntax) then Ok([]) else ParseLine(codec, tail)
  }

  /** `readRecordedInbound` on an existing file. */
  function ReadAll(codec: Codec, b: seq<Byte>): Outcome {
    Then(Completed(codec, b), ParseTail(codec, Tail(b)))
  }

  /** What one more line, or an unfinished one, adds to a log: nothing if it is blank, its events if it is read, and
      otherwise the error, except that an unfinished line may be a syntax error. */
  lemma OneMoreLine(codec: Codec, b: seq<Byte>, line: seq<Byte>)
    requires Tail(b) == [] && NEWLINE !in line
    ensures Completed(codec, []) == Ok([])
    ensures Completed(codec, b).Failed? ==>
      Completed(codec, b + line + [NEWLINE]) == ReadAll(codec, b + line) == Completed(codec, b)
    ensures Completed(codec, b).Ok? ==>
      var so := Completed(codec, b).events;
      && Completed(codec, b + line + [NEWLINE]) == (
           if codec.blank(line) then Ok(so)
           else match codec.parse(line)
             case Events(events) => Ok(so + events)
             case SyntaxError => Failed(Syntax)
             case BadEnvelope => Failed(Envelope))
      && ReadAll(codec, b + line) == (
           if codec.blank(line) then Ok(so)
           else match codec.parse(line)
             case Events(events) => Ok(so + events)
             case SyntaxError => Ok(so)
             case BadEnvelope => Failed(Envelope))
  {
    hide Tail, Lines;
    LineAppended(b, line);
    NoLines([]);
    ParseConcat(codec, Lines(b), [line]);
    OneLine(codec, line);
    if Completed(codec, b).Ok? {
      assert Completed(codec, b).events + [] == Completed(codec, b).events;
    }
  }

  /** `readRecordedInbound`: both loops as in the source. */
  method ReadRecordedInbound(codec: Codec, raw: seq<Byte>) returns (r: Outcome)
    ensures r == ReadAll(codec, raw)
  {
    r := ParseEach(codec, Lines(raw));
    if r.Ok? && !codec.blank(Tail(raw)) {
      match codec.parse(Tail(raw))
      case Events(events) => r := Ok(r.events + events);
      case SyntaxError =>
      case BadEnvelope => r := Failed(Envelope);
    }
  }

  method ParseEach(codec: Codec, lines: seq<seq<Byte>>) returns (r: Outcome)
    ensures r == ParseLines(codec, lines)
  {
    var events := [];
    for i := 0 to |lines|
      invariant ParseLines(codec, lines[..i]) == Ok(events)
    {
      assert lines[..i + 1][..i] == lines[..i];
      if !codec.blank(lines[i]) {
        match codec.parse(lines[i])
        case Events(more) => events := events + more;
        case SyntaxError =>
          FirstFailure(codec, lines, i);
          return Failed(Syntax);
        case BadEnvelope =>
          FirstFailure(codec, lines, i);
          return Failed(Envelope);
      }
    }
    assert lines[..|lines|] == lines;
    r := Ok(events);
  }

  lemma FirstFailure(codec: Codec, lines: seq<seq<Byte>>, i: nat)
    requires i < |lines| && ParseLines(codec, lines[..i]).Ok? && ParseLine(codec, lines[i]).Failed?
    ensures ParseLines(codec, lines) == ParseLine(codec, lines[i])
  {
    assert lines == lines[..i + 1] + lines[i + 1..] && lines[..i + 1][..i] == lines[..i];
    ParseConcat(codec, lines[..i + 1], lines[i + 1..]);
  }

  // ---------------------------------------------------------------------------------------------
  // Tail repair before an append

  datatype Repair = Fine(bytes: seq<Byte>) | Refused(problem: Problem)

  /** A whole last record is terminated, a syntactically partial one is cut off. */
  function Repaired(codec: Codec, b: seq<Byte>): Repair {
    var tail := Tail(b);
    if tail == [] then Fine(b)
    else if |tail| > MAX_PENDING_RECORD_BYTES then Refused(TooLong)
    else match codec.parse(tail)
      case Events(_) => Fine(b + [NEWLINE])
      case SyntaxError => Fine(b[..|b| - |tail|])
      case BadEnvelope => Refused(Envelope)
  }

  /** The repair is refused exactly for a tail over 4 MiB and for one that fails the envelope check; otherwise the log
      gains a newline or loses its tail, as the tail parses or not. */
  lemma RepairIs(codec: Codec, b: seq<Byte>)
    ensures var r, tail := Repaired(codec, b), Tail(b);
      && (r == Refused(TooLong) <==> |tail| > 4_194_304)
      && (r == Refused(Envelope) <==> tail != [] && |tail| <= 4_194_304 && codec.parse(tail).BadEnvelope?)
      && (tail == [] ==> r == Fine(b))
      && (r.Fine? && tail != [] ==>
            r.bytes == if codec.parse(tail).Events? then b + [0x0A] else b[..|b| - |tail|])
  {
  }

  method LastNewline(b: seq<Byte>) returns (index: int)
    ensures -1 <= index < |b| && (index >= 0 ==> b[index] == NEWLINE)
    ensures forall i | index < i < |b| :: b[i] != NEWLINE
  {
    index := |b| - 1;
    while index >= 0 && b[index] != NEWLINE
      invariant -1 <= index < |b|
      invariant forall i | index < i < |b| :: b[i] != NEWLINE
    {
      index := index - 1;
    }
  }

  /** `prepareRecorderTailForAppend`: the search for the last newline reads one window at the end. */
  method PrepareRecorderTail(codec: Codec, file: seq<Byte>) returns (r: Repair)
    ensures r == Repaired(codec, file)
  {
    TailShape(file);
    hide Tail;
    if |file| == 0 || file[|file| - 1] == NEWLINE {
      return Fine(file);
    }
    var windowSize := if |file| <= MAX_PENDING_RECORD_BYTES + 1 then |file| else MAX_PENDING_RECORD_BYTES + 1;
    var window := file[|file| - windowSize..];
    var lastNewline := LastNewline(window);
    WindowTail(file, |file| - windowSize, lastNewline);
    if lastNewline < 0 && |file| > MAX_PENDING_RECORD_BYTES {
      return Refused(TooLong);
    }
    var tailStart := |file| - windowSize + lastNewline + 1;
    var tail := window[lastNewline + 1..];
    Reslice(file, |file| - windowSize, lastNewline + 1);
    match codec.parse(tail)
    case Events(_) => r := Fine(file + [NEWLINE]);
    case SyntaxError => r := Fine(file[..tailStart]);
    case BadEnvelope => r := Refused(Envelope);
  }

  lemma Reslice(file: seq<Byte>, from: nat, k: nat)
    requires from + k <= |file|
    ensures file[from..][k..] == file[from + k..]
  {
  }

  /** The last newline of a window is that of the file, if there is one in it or the window is the file. */
  lemma WindowTail(file: seq<Byte>, from: nat, lastNewline: int)
    requires from <= |file| && -1 <= lastNewline < |file| - from
    requires lastNewline >= 0 ==> file[from..][lastNewline] == NEWLINE
    requires forall i | lastNewline < i < |file| - from :: file[from..][i] != NEWLINE
    ensures if lastNewline >= 0 || from == 0 then Tail(file) == file[from + lastNewline + 1..]
      else |Tail(file)| >= |file| - from
  {
    forall i | from + lastNewline < i < |file| ensures file[i] != NEWLINE {
      assert file[i] == file[from..][i - from];
    }
    if lastNewline >= 0 || from == 0 {
      TailIsUnique(file, from + lastNewline + 1);
    } else {
      TailShape(file);
    }
  }

  lemma CutAtTail(b: seq<Byte>)
    ensures var whole := b[..|b| - |Tail(b)|];
      b == whole + Tail(b) && Tail(whole) == [] && Lines(whole) == Lines(b) && NEWLINE !in Tail(b)
  {
    TailShape(b);
    hide Tail, Lines;
    var whole := b[..|b| - |Tail(b)|];
    TailIsUnique(whole, |whole|);
    LineAppended(whole, Tail(b));
  }

  lemma TerminatedReads(codec: Codec, whole: seq<Byte>, tail: seq<Byte>)
    requires Tail(whole) == [] && NEWLINE !in tail && codec.parse(tail).Events? && !codec.blank(tail) && codec.blank([])
    ensures ReadAll(codec, whole + tail + [NEWLINE]) == ReadAll(codec, whole + tail)
  {
    LineAppended(whole, tail);
    ParseConcat(codec, Lines(whole), [tail]);
    OneLine(codec, tail);
  }

  /** A repaired log has no tail, keeps every completed line, and reads as before. */
  lemma RepairKeepsReads(codec: Codec, b: seq<Byte>)
    requires codec.BlanksAreNoText() && Repaired(codec, b).Fine?
    ensures var fixed := Repaired(codec, b).bytes;
      && Tail(fixed) == [] && Lines(b) <= Lines(fixed)
      && ReadAll(codec, fixed) == ReadAll(codec, b)
      && Repaired(codec, fixed) == Fine(fixed)
  {
    CutAtTail(b);
    var whole, tail := b[..|b| - |Tail(b)|], Tail(b);
    if tail != [] && codec.parse(tail).Events? {
      LineAppended(whole, tail);
      TerminatedReads(codec, whole, tail);
    }
  }

  /** However much of a batch line a crash lets through, the repaired log holds the batch or not a byte of it;
      only the whole text of a batch that cannot be read back, without its newline, is not repaired. */
  lemma CrashIsAllOrNothing(codec: Codec, log: seq<Byte>, batch: seq<Event>, k: nat)
    requires codec.Lawful() && Tail(log) == []
    requires var line := codec.encode(batch) + [NEWLINE]; k <= |line| <= MAX_PENDING_RECORD_BYTES
    ensures var line := codec.encode(batch) + [NEWLINE];
      Repaired(codec, log + line[..k]) ==
        if k < |line| - 1 then Fine(log)
        else if k < |line| && !AllWellFormed(batch) then Refused(Envelope)
        else Fine(log + line)
  {
    hide Tail, Lines, AllWellFormed;
    var text := codec.encode(batch);
    var line := text + [NEWLINE];
    LineAppended(log, text);
    if k == |line| {
      assert line[..k] == line && log + line == log + text + [NEWLINE];
    } else {
      assert line[..k] == text[..k];
      LineAppended(log, text[..k]);
      if k == |text| {
        assert text[..k] == text && log + line == log + text + [NEWLINE];
      } else {
        assert (log + text[..k])[..|log|] == log;
        assert k == 0 ==> log + text[..k] == log;
      }
    }
  }
}

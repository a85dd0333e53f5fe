/** The incremental reader of src/providers/recorder.ts: it follows a growing log by chunks, and must
    give what one read of the whole log would. */
module RecorderReader {
  import opened Common
  import opened RecorderLog

  const CONTINUITY_BYTES := 4096
  const CHUNK_BYTES := 64 * 1024
  const MAX_INCREMENTAL_READ_BYTES := 256 * 1024

  datatype File = File(inode: nat, bytes: seq<Byte>)

  function LastBytes(b: seq<Byte>): (last: seq<Byte>)
    ensures |last| <= CONTINUITY_BYTES && |last| <= |b|
  {
    if |b| <= CONTINUITY_BYTES then b else b[|b| - CONTINUITY_BYTES..]
  }

  lemma LastBytesConcat(a: seq<Byte>, b: seq<Byte>)
    ensures LastBytes(LastBytes(a) + b) == LastBytes(a + b)
  {
  }

  /** One read system call: it may be short.  Only a file that shrinks meanwhile gives nothing. */
  method KernelRead(length: nat, still: bool) returns (bytesRead: nat)
    requires length > 0
    ensures bytesRead <= length && (still ==> bytesRead > 0)
  {
    bytesRead :| bytesRead <= length && (still ==> bytesRead > 0);
  }

  class IncrementalReader {
    var caughtUp: bool
    var continuity: seq<Byte>
    var generation: nat
    var identity: Option<nat>
    var offset: nat
    var pending: seq<Byte>

    constructor ()
      ensures Fresh() && generation == 0
    {
      caughtUp, continuity, generation, identity, offset, pending := true, [], 0, None, 0, [];
    }

    predicate Fresh()
      reads this
    {
      caughtUp && continuity == [] && identity == None && offset == 0 && pending == []
    }

    predicate Valid()
      reads `continuity, `offset, `pending
    {
      && |continuity| <= offset && |continuity| <= CONTINUITY_BYTES
      && forall i | 0 <= i < |pending| :: pending[i] != NEWLINE
    }

    /** The reader stands at `offset` of this log. */
    predicate Tracks(log: seq<Byte>)
      reads this
    {
      && offset <= |log|
      && pending == Tail(log[..offset])
      && continuity == LastBytes(log[..offset])
    }

    predicate Blank()
      reads this
    {
      identity == None && offset == 0 && pending == [] && continuity == []
    }

    method Reset()
      modifies `caughtUp, `continuity, `generation, `offset, `pending
      ensures caughtUp && continuity == [] && offset == 0 && pending == []
      ensures generation == old(generation) + if old(Blank()) then 0 else 1
    {
      if identity != None || offset > 0 || |pending| > 0 || |continuity| > 0 {
        generation := generation + 1;
      }
      caughtUp, continuity, offset, pending := true, [], 0, [];
    }

    /** `consumeRecordedChunk`. */
    method ConsumeRecordedChunk(codec: Codec, chunk: seq<Byte>) returns (r: Outcome)
      modifies `continuity, `pending
      ensures continuity == LastBytes(old(continuity) + chunk)
      ensures var all := old(continuity) + chunk;
        continuity == if |all| > 4096 then all[|all| - 4096..] else all
      ensures r == Failed(TooLong) <==> |Tail(old(pending) + chunk)| > 4_194_304
      ensures r != Failed(TooLong) ==>
        r == Completed(codec, old(pending) + chunk) && pending == Tail(old(pending) + chunk)
    {
      continuity := LastBytes(continuity + chunk);
      var raw := pending + chunk;
      TailShape(raw);
      var lastNewline := LastNewline(raw);
      TailIsUnique(raw, lastNewline + 1);
      if lastNewline < 0 {
        if |raw| > MAX_PENDING_RECORD_BYTES {
          return Failed(TooLong);
        }
        pending := raw;
        NoLines(raw);
        return Ok([]);
      }
      pending := raw[lastNewline + 1..];
      if |pending| > MAX_PENDING_RECORD_BYTES {
        return Failed(TooLong);
      }
      r := ParseEach(codec, Lines(raw));
    }

    /** Does the file still hold, before `offset`, the bytes read last? */
    predicate Continues(file: File)
      requires Valid()
      reads this
    {
      && offset <= |file.bytes|
      && if offset > 0 && continuity == [] then identity == Some(file.inode)
         else continuity != [] ==> file.bytes[offset - |continuity|..offset] == continuity
    }

    /** Where the next read starts, and the unfinished line it starts with. */
    function From(file: File): nat
      requires Valid()
      reads this
    {
      if Continues(file) then offset else 0
    }

    function Carried(file: File): seq<Byte>
      requires Valid()
      reads this
    {
      if Continues(file) then pending else []
    }

    function Remembered(file: File): seq<Byte>
      requires Valid()
      reads this
    {
      if Continues(file) then continuity else []
    }

    function NextGeneration(file: File): nat
      requires Valid()
      reads this
    {
      if !Continues(file) then generation + (if Blank() then 0 else 1)
      else if identity != None && identity != Some(file.inode) then generation + 1
      else generation
    }

    /** Events and state after reading on from `carried` through `read`. */
    predicate Reached(codec: Codec, carried: seq<Byte>, remembered: seq<Byte>, read: seq<Byte>, r: Outcome)
      reads `pending, `continuity
    {
      && r == Completed(codec, carried + read)
      && pending == Tail(carried + read)
      && continuity == LastBytes(remembered + read)
    }

    /** What becomes of the generation and the offset: the file is read on from the offset, at most 256 KiB of it, if
        it still has there what was read last, and otherwise from its start. */
    static predicate Resumes(from: nat, last: seq<Byte>, identity: Option<nat>, generation: nat, file: File,
                             generation': nat, offset: nat)
    {
      var kept := from <= |file.bytes| && |last| <= from &&
        if last == [] then from == 0 || identity == Some(file.inode) else file.bytes[from - |last|..from] == last;
      var other := identity != None && identity != Some(file.inode);
      if kept then
        from <= offset <= from + 262_144 && generation' == generation + if other then 1 else 0
      else
        offset <= 262_144 && generation' == generation + if identity == None && from == 0 then 0 else 1
    }

    /** One round of the loop of `readRecordedInboundAppend`: a read at the offset, possibly short, and its lines. */
    method ReadChunk(
      codec: Codec, bytes: seq<Byte>, length: nat, still: bool,
      ghost carried: seq<Byte>, ghost remembered: seq<Byte>, ghost start: nat, ghost events: seq<Event>)
      returns (bytesRead: nat, more: Outcome)
      requires Valid() && 0 < length && start <= offset && offset + length <= |bytes|
      requires Reached(codec, carried, remembered, bytes[start..offset], Ok(events))
      modifies `continuity, `offset, `pending
      ensures bytesRead <= length && (still ==> 0 < bytesRead) && offset == old(offset) + bytesRead
      ensures more.Ok? ==>
        Valid() && Reached(codec, carried, remembered, bytes[start..offset], Ok(events + more.events))
      ensures more.Failed? ==> Broken(codec, carried + bytes[start..offset], more)
    {
      hide Tail, Completed, LastBytes;
      bytesRead := KernelRead(length, still);
      if bytesRead == 0 {
        assert events + [] == events;
        return 0, Ok([]);
      }
      NextChunk(codec, carried, remembered, bytes, start, offset, offset + bytesRead);
      var chunk := bytes[offset..offset + bytesRead];
      offset := offset + bytesRead;
      more := ConsumeRecordedChunk(codec, chunk);
    }

    lemma NothingRead(codec: Codec, bytes: seq<Byte>)
      requires Valid() && offset <= |bytes|
      ensures Reached(codec, pending, continuity, bytes[offset..offset], Ok([]))
    {
      NoLines(pending);
      assert pending + bytes[offset..offset] == pending;
      assert continuity + bytes[offset..offset] == continuity;
    }

    /** The loop of `readRecordedInboundAppend`, from the offset on. */
    method ReadChunks(codec: Codec, file: File, still: bool) returns (r: Outcome)
      requires Valid() && offset <= |file.bytes|
      modifies `caughtUp, `continuity, `offset, `pending
      ensures r.Ok? ==>
        && Valid() && old(offset) <= offset <= |file.bytes|
        && Reached(codec, old(pending), old(continuity), file.bytes[old(offset)..offset], r)
        && (offset == |file.bytes| ==> caughtUp) && offset <= old(offset) + 262_144
        && (still ==> (caughtUp ==> offset == |file.bytes|) && (old(offset) < |file.bytes| ==> old(offset) < offset))
      ensures r.Failed? ==> BrokenFrom(codec, old(pending), file.bytes, old(offset), r)
    {
      ghost var start, carried, remembered := offset, pending, continuity;
      var events, remaining, reachedEof := [], MAX_INCREMENTAL_READ_BYTES, false;
      NothingRead(codec, file.bytes);
      hide Reached, Valid, Completed, Tail, LastBytes, Broken, BrokenFrom;
      while offset < |file.bytes| && remaining > 0 && !reachedEof
        invariant start <= offset <= |file.bytes|
        invariant Valid() && Reached(codec, carried, remembered, file.bytes[start..offset], Ok(events))
        invariant 0 <= remaining == MAX_INCREMENTAL_READ_BYTES - (offset - start)
        invariant reachedEof ==> !still
        decreases |file.bytes| - offset, !reachedEof
      {
        var length := if |file.bytes| - offset < CHUNK_BYTES then |file.bytes| - offset else CHUNK_BYTES;
        length := if remaining < length then remaining else length;
        var bytesRead, more := ReadChunk(codec, file.bytes, length, still, carried, remembered, start, events);
        if more.Failed? {
          BrokenHere(codec, carried, file.bytes, start, offset, more);
          return more;
        }
        events := events + more.events;
        remaining := remaining - bytesRead;
        reachedEof := bytesRead == 0;
      }
      caughtUp := reachedEof || offset >= |file.bytes|;
      r := Ok(events);
    }

    /** `readRecordedInboundAppend`; `still` says that the file does not shrink during the call. */
    method ReadAppend(codec: Codec, source: Option<File>, still: bool) returns (r: Outcome)
      requires Valid()
      modifies this
      ensures Valid()
      ensures r.Failed? ==> source.Some? && unchanged(this)
      ensures source.None? ==>
        r == Ok([]) && Fresh() && generation == old(generation) + if old(Blank()) then 0 else 1
      ensures source.Some? && r.Ok? ==>
        Resumes(old(offset), old(continuity), old(identity), old(generation), source.value, generation, offset)
      ensures source.Some? && r.Ok? ==>
        var start, bytes := old(From(source.value)), source.value.bytes;
        && identity == Some(source.value.inode)
        && generation == old(NextGeneration(source.value))
        && start <= offset <= |bytes|
        && Reached(codec, old(Carried(source.value)), old(Remembered(source.value)), bytes[start..offset], r)
        && (offset == |bytes| ==> caughtUp)
        && (still ==> (caughtUp ==> offset == |bytes|) && (start < |bytes| ==> start < offset))
      ensures source.Some? && r.Failed? ==>
        BrokenFrom(codec, old(Carried(source.value)), source.value.bytes, old(From(source.value)), r)
    {
      hide Completed, LastBytes;
      if source.None? {
        Reset();
        identity := None;
        return Ok([]);
      }
      var file := source.value;
      var snapshot := (caughtUp, continuity, generation, identity, offset, pending);
      var rotated := identity != None && identity != Some(file.inode);
      if !Continues(file) {
        Reset();
      } else if rotated {
        generation := generation + 1;
      }
      identity := Some(file.inode);
      r := ReadChunks(codec, file, still);
      if r.Failed? {
        caughtUp, continuity, generation, identity, offset, pending :=
          snapshot.0, snapshot.1, snapshot.2, snapshot.3, snapshot.4, snapshot.5;
      }
    }
  }

  /** Why a read fails: an unfinished line over the bound, or a completed line that does not parse. */
  ghost predicate Broken(codec: Codec, b: seq<Byte>, r: Outcome) {
    if r == Failed(TooLong) then |Tail(b)| > MAX_PENDING_RECORD_BYTES else Completed(codec, b).Failed?
  }

  ghost predicate BrokenFrom(codec: Codec, carried: seq<Byte>, bytes: seq<Byte>, start: nat, r: Outcome)
    requires start <= |bytes|
  {
    exists cut | start <= cut <= |bytes| :: Broken(codec, carried + bytes[start..cut], r)
  }

  lemma BrokenHere(codec: Codec, carried: seq<Byte>, bytes: seq<Byte>, start: nat, cut: nat, r: Outcome)
    requires start <= cut <= |bytes| && Broken(codec, carried + bytes[start..cut], r)
    ensures BrokenFrom(codec, carried, bytes, start, r)
  {
  }

  lemma OneMoreChunk(codec: Codec, carried: seq<Byte>, remembered: seq<Byte>, before: seq<Byte>, chunk: seq<Byte>)
    ensures Completed(codec, carried + (before + chunk)) ==
      Then(Completed(codec, carried + before), Completed(codec, Tail(carried + before) + chunk))
    ensures Tail(carried + (before + chunk)) == Tail(Tail(carried + before) + chunk)
    ensures LastBytes(remembered + (before + chunk)) == LastBytes(LastBytes(remembered + before) + chunk)
  {
    assert carried + (before + chunk) == (carried + before) + chunk;
    assert remembered + (before + chunk) == (remembered + before) + chunk;
    CompletedConcat(codec, carried + before, chunk);
    LinesOfConcat(carried + before, chunk);
    LastBytesConcat(remembered + before, chunk);
  }

  lemma NoNewlineInTail(b: seq<Byte>)
    ensures forall i | 0 <= i < |Tail(b)| :: Tail(b)[i] != NEWLINE
  {
    TailShape(b);
  }

  lemma NextChunk(
    codec: Codec, carried: seq<Byte>, remembered: seq<Byte>, bytes: seq<Byte>, start: nat, at: nat, next: nat)
    requires start <= at <= next <= |bytes|
    ensures var before, after, chunk := bytes[start..at], bytes[start..next], bytes[at..next];
      && Completed(codec, carried + after)
        == Then(Completed(codec, carried + before), Completed(codec, Tail(carried + before) + chunk))
      && Tail(carried + after) == Tail(Tail(carried + before) + chunk)
      && LastBytes(remembered + after) == LastBytes(LastBytes(remembered + before) + chunk)
      && forall i | 0 <= i < |Tail(carried + after)| :: Tail(carried + after)[i] != NEWLINE
  {
    hide *;
    var before, after, chunk := bytes[start..at], bytes[start..next], bytes[at..next];
    assert before + chunk == after;
    OneMoreChunk(codec, carried, remembered, before, chunk);
    NoNewlineInTail(carried + after);
  }

  // ---------------------------------------------------------------------------------------------
  // Following a growing log

  lemma TrackerContinues(reader: IncrementalReader, file: File)
    requires reader.Valid() && reader.Tracks(file.bytes)
    ensures reader.Continues(file)
  {
  }

  /** From one offset to a later one, the reader's step is what the log's prefixes say. */
  lemma PrefixesAgree(codec: Codec, log: seq<Byte>, from: nat, to: nat)
    requires from <= to <= |log|
    ensures var carried, read := Tail(log[..from]), log[from..to];
      && Tail(log[..to]) == Tail(carried + read)
      && Completed(codec, log[..to]) == Then(Completed(codec, log[..from]), Completed(codec, carried + read))
      && LastBytes(log[..to]) == LastBytes(LastBytes(log[..from]) + read)
  {
    assert log[..to] == log[..from] + log[from..to];
    LinesOfConcat(log[..from], log[from..to]);
    CompletedConcat(codec, log[..from], log[from..to]);
    LastBytesConcat(log[..from], log[from..to]);
  }

  /** A log that no read fails on. */
  ghost predicate Sound(codec: Codec, log: seq<Byte>) {
    Completed(codec, log).Ok? && ShortLines(log)
  }

  lemma BrokenIsUnsound(codec: Codec, log: seq<Byte>, from: nat, r: Outcome)
    requires from <= |log| && r.Failed? && BrokenFrom(codec, Tail(log[..from]), log, from, r)
    ensures r == Failed(TooLong) ==> !ShortLines(log)
    ensures !Sound(codec, log)
  {
    hide LastBytes, Tail, Completed;
    var cut :| from <= cut <= |log| && Broken(codec, Tail(log[..from]) + log[from..cut], r);
    PrefixesAgree(codec, log, from, cut);
    assert log == log[..cut] + log[cut..];
    CompletedConcat(codec, log[..cut], log[cut..]);
  }

  /** One read of a reader that stands in the log it reads, whatever the cut points. */
  method ReadOn(codec: Codec, reader: IncrementalReader, file: File, still: bool) returns (r: Outcome)
    requires reader.Valid() && reader.Tracks(file.bytes) && reader.identity in {None, Some(file.inode)}
    modifies reader
    ensures reader.Valid() && reader.Tracks(file.bytes)
    ensures reader.generation == old(reader.generation) && reader.identity in {old(reader.identity), Some(file.inode)}
    ensures r.Failed? ==> unchanged(reader) && !Sound(codec, file.bytes)
    ensures r.Ok? ==>
      && old(reader.offset) <= reader.offset && reader.identity == Some(file.inode)
      && Completed(codec, file.bytes[..reader.offset]) == Then(Completed(codec, file.bytes[..old(reader.offset)]), r)
      && (reader.offset == |file.bytes| ==> reader.caughtUp)
      && (still && reader.caughtUp ==> reader.offset == |file.bytes|)
      && (still && old(reader.offset) < |file.bytes| ==> old(reader.offset) < reader.offset)
    ensures r == Failed(TooLong) ==> !ShortLines(file.bytes)
  {
    TrackerContinues(reader, file);
    var from := reader.offset;
    r := reader.ReadAppend(codec, Some(file), still);
    if r.Ok? {
      PrefixesAgree(codec, file.bytes, from, reader.offset);
    } else {
      BrokenIsUnsound(codec, file.bytes, from, r);
    }
  }

  /** Wherever the log is cut, the unfinished line is within the bound. */
  ghost predicate ShortLines(log: seq<Byte>) {
    forall cut | 0 <= cut <= |log| :: |Tail(log[..cut])| <= MAX_PENDING_RECORD_BYTES
  }

  /** That is so exactly when every line, and the tail, is within the bound. */
  lemma {:induction false} ShortLinesIff(log: seq<Byte>)
    ensures ShortLines(log) <==>
      |Tail(log)| <= MAX_PENDING_RECORD_BYTES && forall line <- Lines(log) :: |line| <= MAX_PENDING_RECORD_BYTES
  {
    if log == [] {
    } else {
      var init, last := log[..|log| - 1], log[|log| - 1];
      assert log == init + [last];
      ShortLinesIff(init);
      ShortLinesSnoc(init, last);
      LinesSnoc(init, last);
      hide ShortLines, Lines, Tail;
      if last == NEWLINE {
        assert forall line <- Lines(log) :: line in Lines(init) || line == Tail(init);
        assert Tail(init) in Lines(log) && forall line <- Lines(init) :: line in Lines(log);
      }
    }
  }

  lemma ShortLinesSnoc(init: seq<Byte>, c: Byte)
    ensures ShortLines(init + [c]) <==> ShortLines(init) && |Tail(init + [c])| <= MAX_PENDING_RECORD_BYTES
  {
    var log := init + [c];
    hide Tail;
    assert forall cut | 0 <= cut <= |init| :: log[..cut] == init[..cut];
    assert log[..|log|] == log;
  }

  /** Reads over any growth of one file, at any cut points, give the completed lines before the
      offset; and what the one-shot reader adds is its tail. */
  method FollowGrowth(codec: Codec, growth: seq<File>)
    returns (reader: IncrementalReader, events: seq<Event>, tooLong: bool)
    requires growth != []
    requires forall i | 0 <= i < |growth| - 1 ::
      growth[i].inode == growth[i + 1].inode && growth[i].bytes <= growth[i + 1].bytes
    ensures var log := growth[|growth| - 1].bytes;
      && reader.Tracks(log) && reader.generation == 0
      && Completed(codec, log[..reader.offset]) == Ok(events)
      && (reader.offset == |log| ==> ReadAll(codec, log) == Then(Ok(events), ParseTail(codec, reader.pending)))
      && (ShortLines(log) ==> !tooLong)
  {
    reader := new IncrementalReader();
    events, tooLong := [], false;
    for i := 0 to |growth|
      invariant reader.Valid() && reader.generation == 0 && fresh(reader)
      invariant i < |growth| ==> reader.Tracks(growth[i].bytes) && reader.identity in {None, Some(growth[i].inode)}
      invariant i < |growth| ==> Completed(codec, growth[i].bytes[..reader.offset]) == Ok(events)
      invariant i == |growth| ==>
        reader.Tracks(growth[i - 1].bytes) && Completed(codec, growth[i - 1].bytes[..reader.offset]) == Ok(events)
      invariant tooLong ==> i > 0 && !ShortLines(growth[i - 1].bytes)
    {
      var file := growth[i];
      if i > 0 {
        LongLinesStay(growth[i - 1].bytes, file.bytes);
      }
      var r := ReadOn(codec, reader, file, false);
      if r.Ok? {
        events := events + r.events;
      } else if r.problem == TooLong {
        tooLong := true;
      }
      if i + 1 < |growth| {
        assert growth[i + 1].bytes[..reader.offset] == file.bytes[..reader.offset];
      }
    }
    var log := growth[|growth| - 1].bytes;
    assert log[..|log|] == log;
  }

  lemma LongLinesStay(log: seq<Byte>, longer: seq<Byte>)
    requires log <= longer
    ensures ShortLines(longer) ==> ShortLines(log)
  {
    assert forall cut | 0 <= cut <= |log| :: log[..cut] == longer[..cut];
  }
}

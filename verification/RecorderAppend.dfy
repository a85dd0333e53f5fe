/** Batch appends of src/providers/recorder.ts: the bounded index of recent record identities, and the
    append that leaves out what the index knows. */
module RecorderAppend {
  import opened Common
  import opened RecorderLog
  import opened RecorderReader

  const MAX_RECENT_RECORD_KEYS := 4096

  // ---------------------------------------------------------------------------------------------
  // The window of recent keys

  /** `rememberRecentRecord` on an insertion-ordered set: the oldest key goes when the set is over its bound. */
  function Remember(seen: seq<Key>, key: Key): seq<Key> {
    if key in seen then seen
    else if |seen| + 1 > MAX_RECENT_RECORD_KEYS then (seen + [key])[1..]
    else seen + [key]
  }

  /** The set after the records of a whole log. */
  function Window(keys: seq<Key>): seq<Key> {
    if keys == [] then [] else Remember(Window(keys[..|keys| - 1]), keys[|keys| - 1])
  }

  function RememberAll(seen: seq<Key>, keys: seq<Key>): seq<Key> {
    if keys == [] then seen else Remember(RememberAll(seen, keys[..|keys| - 1]), keys[|keys| - 1])
  }

  lemma {:induction false} WindowConcat(a: seq<Key>, b: seq<Key>)
    ensures Window(a + b) == RememberAll(Window(a), b)
  {
    if b == [] {
      assert a + b == a;
    } else {
      WindowConcat(a, b[..|b| - 1]);
      assert (a + b)[..|a + b| - 1] == a + b[..|b| - 1];
    }
  }

  /** Equal keys are more than a window apart. */
  ghost predicate Spaced(keys: seq<Key>) {
    forall i, j | 0 <= i < j < |keys| && keys[i] == keys[j] :: j - i > MAX_RECENT_RECORD_KEYS
  }

  function Recent(keys: seq<Key>): seq<Key> {
    if |keys| <= MAX_RECENT_RECORD_KEYS then keys else keys[|keys| - MAX_RECENT_RECORD_KEYS..]
  }

  lemma SpacedInit(keys: seq<Key>)
    requires Spaced(keys) && keys != []
    ensures Spaced(keys[..|keys| - 1])
  {
  }

  /** Of a spaced log the window is the last 4096 keys, in order. */
  lemma {:induction false} SpacedWindow(keys: seq<Key>)
    requires Spaced(keys)
    ensures Window(keys) == Recent(keys)
  {
    if keys == [] {
    } else {
      hide Spaced, Recent;
      var init, last := keys[..|keys| - 1], keys[|keys| - 1];
      assert keys == init + [last];
      SpacedInit(keys);
      SpacedWindow(init);
      NotRecent(keys);
      RecentSnoc(init, last);
    }
  }

  lemma RecentSnoc(keys: seq<Key>, key: Key)
    ensures var longer := Recent(keys) + [key];
      Recent(keys + [key]) == if |longer| > MAX_RECENT_RECORD_KEYS then longer[1..] else longer
  {
    var all := keys + [key];
    if |keys| >= MAX_RECENT_RECORD_KEYS {
      var from := |keys| - MAX_RECENT_RECORD_KEYS;
      assert Recent(keys) == keys[from..];
      assert all[from + 1..] == (keys[from..] + [key])[1..];
    }
  }

  lemma NotRecent(keys: seq<Key>)
    requires Spaced(keys) && keys != []
    ensures keys[|keys| - 1] !in Recent(keys[..|keys| - 1])
  {
    var init := keys[..|keys| - 1];
    forall i | 0 <= i < |Recent(init)|
      ensures Recent(init)[i] != keys[|keys| - 1]
    {
      assert Recent(init)[i] == keys[|init| - |Recent(init)| + i];
    }
  }

  predicate Distinct(keys: seq<Key>) {
    forall i, j | 0 <= i < j < |keys| :: keys[i] != keys[j]
  }

  /** New keys outside the window keep a log spaced. */
  lemma SpacedGrows(keys: seq<Key>, added: seq<Key>)
    requires Spaced(keys) && Distinct(added) && forall k <- added :: k !in Window(keys)
    ensures Spaced(keys + added)
  {
    SpacedWindow(keys);
    var from := |keys| - |Recent(keys)|;
    forall i | from <= i < |keys|
      ensures keys[i] in Window(keys)
    {
      assert keys[i] == Recent(keys)[i - from];
    }
  }

  // ---------------------------------------------------------------------------------------------
  // The index

  ghost predicate Indexed(codec: Codec, log: seq<Byte>, seen: seq<Key>) {
    Completed(codec, log).Ok? && seen == Window(KeysOf(Completed(codec, log).events))
  }

  method RememberRecords(seen: seq<Key>, events: seq<Event>) returns (after: seq<Key>)
    ensures after == RememberAll(seen, KeysOf(events))
  {
    after := seen;
    for i := 0 to |events|
      invariant after == RememberAll(seen, KeysOf(events)[..i])
    {
      assert KeysOf(events)[..i + 1][..i] == KeysOf(events)[..i];
      after := Remember(after, KeyOf(events[i]));
    }
    assert KeysOf(events)[..|events|] == KeysOf(events);
  }

  lemma IndexGrows(codec: Codec, log: seq<Byte>, longer: seq<Byte>, seen: seq<Key>, more: seq<Event>)
    requires Indexed(codec, log, seen) && Completed(codec, longer) == Then(Completed(codec, log), Ok(more))
    ensures Indexed(codec, longer, RememberAll(seen, KeysOf(more)))
  {
    hide Window, RememberAll, Completed;
    var events := Completed(codec, log).events;
    WindowConcat(KeysOf(events), KeysOf(more));
    assert KeysOf(events + more) == KeysOf(events) + KeysOf(more);
  }

  class RecordIdentityIndex {
    const reader: IncrementalReader
    var seen: seq<Key>

    constructor ()
      ensures Valid() && fresh(reader) && seen == [] && reader.Fresh()
    {
      reader := new IncrementalReader();
      seen := [];
    }

    ghost predicate Valid()
      reads this, reader
    {
      reader.Valid() && (reader.identity == None ==> reader.Blank() && seen == [])
    }

    /** The index stands at the reader's offset of this log. */
    ghost predicate Knows(codec: Codec, log: seq<Byte>)
      reads this, reader
    {
      reader.Tracks(log) && Indexed(codec, log[..reader.offset], seen)
    }

    /** The index is that of this whole log. */
    ghost predicate Stands(codec: Codec, log: seq<Byte>)
      reads this, reader
    {
      Knows(codec, log) && reader.offset == |log|
    }

    /** If the bytes before the offset pass the continuity check, they are those read: no collision
        in the checked window. */
    ghost predicate Trusts(codec: Codec, file: File)
      requires Valid()
      reads this, reader
    {
      reader.Continues(file) ==>
        reader.Tracks(file.bytes) &&
          (reader.identity == Some(file.inode) ==> Indexed(codec, file.bytes[..reader.offset], seen))
    }

    /** The next read stays in the generation. */
    ghost predicate Settled(codec: Codec, file: File)
      reads this, reader
    {
      Knows(codec, file.bytes) && reader.identity in {None, Some(file.inode)}
    }

    /** One round of `syncRecordIdentityIndex`: after a turn of the generation it starts over. */
    method SyncRound(codec: Codec, file: File) returns (r: Outcome, turned: bool)
      requires Valid() && Trusts(codec, file)
      modifies this, reader
      ensures Valid() && Trusts(codec, file)
      ensures r.Failed? ==> !Sound(codec, file.bytes)
      ensures r.Ok? ==> Settled(codec, file) && reader.offset <= |file.bytes|
      ensures r.Ok? ==> turned == !old(Settled(codec, file)) && (turned ==> !reader.caughtUp)
      ensures r.Ok? && !turned ==>
        && reader.identity == Some(file.inode) && (reader.caughtUp <==> reader.offset == |file.bytes|)
        && (old(reader.offset) < |file.bytes| ==> old(reader.offset) < reader.offset)
        && old(reader.offset) <= reader.offset
    {
      hide LastBytes, KeysOf;
      hide Tail, Lines, Spaced, Window, Completed, Indexed, Sound, BrokenFrom, RememberAll;
      var generation := reader.generation;
      ghost var from := reader.offset;
      NoSettlement(codec, file);
      turned := false;
      r := reader.ReadAppend(codec, Some(file), true);
      if r.Failed? {
        BrokenIsUnsound(codec, file.bytes, if reader.Continues(file) then reader.offset else 0, r);
        return;
      }
      turned := reader.generation != generation;
      if turned {
        seen := [];
        reader.caughtUp, reader.continuity, reader.offset, reader.pending := false, [], 0, [];
        EmptyPrefix(codec, file.bytes);
      } else {
        PrefixesAgree(codec, file.bytes, from, reader.offset);
        IndexGrows(codec, file.bytes[..from], file.bytes[..reader.offset], seen, r.events);
        seen := RememberRecords(seen, r.events);
      }
    }

    /** `syncRecordIdentityIndex`, under the recorder lock: the file stays as it is. */
    method Sync(codec: Codec, file: File) returns (r: Outcome)
      requires Valid() && Trusts(codec, file)
      modifies this, reader
      ensures Valid()
      ensures r.Ok? ==> Stands(codec, file.bytes) && reader.identity == Some(file.inode)
      ensures r.Failed? ==> !Sound(codec, file.bytes) && Trusts(codec, file)
    {
      hide Trusts, Knows, Sound;
      var turned;
      r, turned := SyncRound(codec, file);
      while r.Ok? && !reader.caughtUp
        invariant Valid() && Trusts(codec, file)
        invariant r.Failed? ==> !Sound(codec, file.bytes)
        invariant r.Ok? ==> Settled(codec, file) && reader.offset <= |file.bytes|
        invariant r.Ok? && reader.caughtUp ==>
          reader.identity == Some(file.inode) && reader.offset == |file.bytes|
        decreases r.Ok?, |file.bytes| - reader.offset, !reader.caughtUp
      {
        r, turned := SyncRound(codec, file);
      }
    }

    /** An index that knows a log can be used on whatever the log has grown to. */
    lemma UsedIndexTrusts(codec: Codec, log: seq<Byte>, file: File)
      requires Valid() && Knows(codec, log) && log <= file.bytes
      ensures Trusts(codec, file) && Knows(codec, file.bytes)
    {
      assert file.bytes[..reader.offset] == log[..reader.offset];
    }

    lemma NoSettlement(codec: Codec, file: File)
      requires Valid() && Trusts(codec, file)
      ensures Settled(codec, file) <==> reader.NextGeneration(file) == reader.generation
      ensures Settled(codec, file) ==> reader.Continues(file)
    {
      EmptyPrefix(codec, file.bytes);
      if Settled(codec, file) {
        TrackerContinues(reader, file);
      }
    }
  }

  lemma EmptyPrefix(codec: Codec, log: seq<Byte>)
    ensures log[..0] == [] && Completed(codec, []) == Ok([]) && Indexed(codec, [], [])
  {
    assert KeysOf([]) == [];
  }

  // ---------------------------------------------------------------------------------------------
  // Batch append

  /** The events of a batch whose key is neither known nor earlier in the batch. */
  function NewOnes(events: seq<Event>, seen: seq<Key>): (added: seq<Event>)
    ensures Distinct(KeysOf(added)) && forall e <- added :: KeyOf(e) !in seen && e in events
    ensures forall e <- events :: KeyOf(e) in seen || KeyOf(e) in KeysOf(added)
  {
    if events == [] then []
    else
      var before, last := NewOnes(events[..|events| - 1], seen), events[|events| - 1];
      assert events == events[..|events| - 1] + [last];
      if KeyOf(last) in seen || KeyOf(last) in KeysOf(before) then before
      else
        assert KeysOf(before + [last]) == KeysOf(before) + [KeyOf(last)];
        before + [last]
  }

  method FilterBatch(events: seq<Event>, seen: seq<Key>) returns (recorded: seq<Event>)
    ensures recorded == NewOnes(events, seen)
  {
    recorded := [];
    var pendingIdentities: set<Key> := {};
    for i := 0 to |events|
      invariant recorded == NewOnes(events[..i], seen)
      invariant pendingIdentities == set k | k in KeysOf(recorded)
    {
      assert events[..i + 1][..i] == events[..i];
      var identity := KeyOf(events[i]);
      if identity in seen || identity in pendingIdentities {
        continue;
      }
      pendingIdentities := pendingIdentities + {identity};
      assert KeysOf(recorded + [events[i]]) == KeysOf(recorded) + [identity];
      recorded := recorded + [events[i]];
    }
    assert events[..|events|] == events;
  }

  function Line(codec: Codec, batch: seq<Event>): seq<Byte> {
    codec.encode(batch) + [NEWLINE]
  }

  /** A batch that may follow a log with these keys. */
  ghost predicate MayFollow(codec: Codec, keys: seq<Key>, batch: seq<Event>) {
    && Distinct(KeysOf(batch)) && (forall k <- KeysOf(batch) :: k !in Window(keys))
    && |Line(codec, batch)| <= MAX_PENDING_RECORD_BYTES
  }

  /** The first `k` bytes of a batch line: part of its text, or the text of a batch that can be read back. */
  ghost predicate Torn(codec: Codec, batch: seq<Event>, k: nat, tail: seq<Byte>) {
    && k <= |codec.encode(batch)| && tail == codec.encode(batch)[..k]
    && (k < |codec.encode(batch)| || AllWellFormed(batch))
  }

  /** A log that only batch appends wrote, all of which can be read back, the last of them perhaps cut short. */
  ghost predicate BatchLog(codec: Codec, log: seq<Byte>) {
    && Sound(codec, log)
    && var keys := KeysOf(Completed(codec, log).events);
    && Spaced(keys)
    && (Tail(log) == [] || exists batch, k: nat :: Torn(codec, batch, k, Tail(log)) && MayFollow(codec, keys, batch))
  }

  /** A log that every read fails on. */
  ghost predicate Doomed(codec: Codec, log: seq<Byte>) {
    Repaired(codec, log) == Refused(Envelope) || (Tail(log) == [] && Completed(codec, log).Failed?)
  }

  lemma LineParses(codec: Codec, log: seq<Byte>, batch: seq<Event>)
    requires codec.Lawful() && Tail(log) == [] && Completed(codec, log).Ok?
    ensures Completed(codec, log + Line(codec, batch)) ==
      if AllWellFormed(batch) then Ok(Completed(codec, log).events + batch) else Failed(Envelope)
  {
    hide Tail, Lines, AllWellFormed;
    assert log + Line(codec, batch) == log + codec.encode(batch) + [NEWLINE];
    LineAppended(log, codec.encode(batch));
    ParseConcat(codec, Lines(log), [codec.encode(batch)]);
    OneLine(codec, codec.encode(batch));
  }

  lemma LineLeavesNoTail(codec: Codec, log: seq<Byte>, batch: seq<Event>)
    requires codec.Lawful() && Tail(log) == []
    ensures Tail(log + Line(codec, batch)) == []
  {
    hide Tail, Lines;
    assert log + Line(codec, batch) == log + codec.encode(batch) + [NEWLINE];
    LineAppended(log, codec.encode(batch));
  }

  lemma LineIsShort(codec: Codec, log: seq<Byte>, batch: seq<Event>)
    requires codec.Lawful() && ShortLines(log) && Tail(log) == [] && |Line(codec, batch)| <= MAX_PENDING_RECORD_BYTES
    ensures ShortLines(log + Line(codec, batch)) && Lines(log) <= Lines(log + Line(codec, batch))
  {
    hide Tail, Lines, ShortLines;
    assert log + Line(codec, batch) == log + codec.encode(batch) + [NEWLINE];
    LineAppended(log, codec.encode(batch));
    ShortLinesIff(log);
    ShortLinesIff(log + Line(codec, batch));
  }

  lemma WholeBatchKeeps(codec: Codec, log: seq<Byte>, batch: seq<Event>)
    requires codec.Lawful() && BatchLog(codec, log) && Tail(log) == [] && AllWellFormed(batch)
    requires MayFollow(codec, KeysOf(Completed(codec, log).events), batch)
    ensures var longer := log + Line(codec, batch);
      && BatchLog(codec, longer) && Tail(longer) == [] && Lines(log) <= Lines(longer)
      && Completed(codec, longer) == Then(Completed(codec, log), Ok(batch))
  {
    hide Tail, Lines, AllWellFormed, ShortLines, Spaced, Window, Completed, Line;
    var events := Completed(codec, log).events;
    LineIsShort(codec, log, batch);
    LineLeavesNoTail(codec, log, batch);
    LineParses(codec, log, batch);
    SpacedGrows(KeysOf(events), KeysOf(batch));
    assert KeysOf(events + batch) == KeysOf(events) + KeysOf(batch);
  }

  lemma TornBatchKeeps(codec: Codec, log: seq<Byte>, batch: seq<Event>, k: nat)
    requires codec.Lawful() && BatchLog(codec, log) && Tail(log) == []
    requires MayFollow(codec, KeysOf(Completed(codec, log).events), batch)
    requires k <= |Line(codec, batch)| && (k < |codec.encode(batch)| || AllWellFormed(batch))
    ensures var torn := log + Line(codec, batch)[..k];
      && BatchLog(codec, torn) && Lines(log) <= Lines(torn)
      && Repaired(codec, torn) == Fine(if k < |codec.encode(batch)| then log else log + Line(codec, batch))
  {
    hide Tail, Lines, AllWellFormed, Repaired, Spaced, Window;
    var text, line := codec.encode(batch), Line(codec, batch);
    CrashIsAllOrNothing(codec, log, batch, k);
    if k == |line| {
      assert line[..k] == line;
      WholeBatchKeeps(codec, log, batch);
    } else {
      assert line[..k] == text[..k];
      LineAppended(log, text[..k]);
      ShortLinesIff(log);
      ShortLinesIff(log + line[..k]);
      assert Torn(codec, batch, k, text[..k]);
    }
  }

  /** The whole text of a batch that cannot be read back dooms the log, with or without its newline. */
  lemma UnreadableBatchDooms(codec: Codec, log: seq<Byte>, batch: seq<Event>, k: nat)
    requires codec.Lawful() && Tail(log) == [] && !AllWellFormed(batch) && Completed(codec, log).Ok?
    requires |codec.encode(batch)| <= k <= |Line(codec, batch)| <= MAX_PENDING_RECORD_BYTES
    ensures Doomed(codec, log + Line(codec, batch)[..k])
  {
    hide Tail, Lines, AllWellFormed, Repaired;
    var text, line := codec.encode(batch), Line(codec, batch);
    CrashIsAllOrNothing(codec, log, batch, k);
    if k == |line| {
      assert line[..k] == line && log + line == log + text + [NEWLINE];
      LineAppended(log, text);
      ParseConcat(codec, Lines(log), [text]);
      OneLine(codec, text);
    }
  }

  /** Nothing is read from a doomed log, and whatever is written after it cannot change that. */
  lemma DoomedForGood(codec: Codec, log: seq<Byte>, more: seq<Byte>)
    requires codec.BlanksAreNoText() && Doomed(codec, log)
    ensures ReadAll(codec, log).Failed?
    ensures Tail(log) == [] ==> Completed(codec, log + more).Failed?
    ensures Completed(codec, log + [NEWLINE] + more).Failed?
  {
    hide Tail, Lines;
    CompletedConcat(codec, log, more);
    CompletedConcat(codec, log, [NEWLINE]);
    CompletedConcat(codec, log + [NEWLINE], more);
    if Repaired(codec, log) == Refused(Envelope) {
      CutAtTail(log);
      LineAppended([], Tail(log));
      assert [] + Tail(log) == Tail(log);
      OneLine(codec, Tail(log));
    }
  }

  lemma NotBoth(codec: Codec, log: seq<Byte>)
    requires codec.Lawful() && BatchLog(codec, log)
    ensures !Doomed(codec, log) && Repaired(codec, log).Fine?
  {
    RepairKeepsBatchLog(codec, log);
  }

  /** Repair brings a batch log back to one without a tail. */
  lemma RepairKeepsBatchLog(codec: Codec, log: seq<Byte>)
    requires codec.Lawful() && BatchLog(codec, log)
    ensures Repaired(codec, log).Fine?
    ensures var fixed := Repaired(codec, log).bytes;
      BatchLog(codec, fixed) && Tail(fixed) == [] && Lines(log) <= Lines(fixed)
  {
    hide Tail, Lines, AllWellFormed, Spaced, Window;
    CutAtTail(log);
    if Tail(log) != [] {
      var whole := log[..|log| - |Tail(log)|];
      ShortLinesIff(log);
      ShortLinesIff(whole);
      var batch, k: nat :| Torn(codec, batch, k, Tail(log)) &&
        MayFollow(codec, KeysOf(Completed(codec, log).events), batch);
      assert Line(codec, batch)[..k] == Tail(log);
      TornBatchKeeps(codec, whole, batch, k);
      if AllWellFormed(batch) {
        WholeBatchKeeps(codec, whole, batch);
      }
    }
  }

  /** What happens to the write of a batch line: it is done, or it ends after some bytes, in the death of the
      process or in an error of which the process lives on; an error after the last byte is one of `sync`. */
  datatype Fate = Completes | Stops(written: nat, crash: bool)

  function Cut(fate: Fate, length: nat): Option<nat> {
    if fate.Stops? && fate.written <= length then Some(fate.written) else None
  }

  /** `Unconfirmed` is ProviderRecorderCommittedError. */
  datatype Appended = Recorded(events: seq<Event>) | Error(problem: Problem) | Unconfirmed | Crashed

  function KeysIn(codec: Codec, log: seq<Byte>): seq<Key> {
    var r := Completed(codec, log);
    if r.Ok? then KeysOf(r.events) else []
  }

  /** The events that an append adds to a repaired log. */
  function Added(codec: Codec, fixed: seq<Byte>, events: seq<Event>): seq<Event> {
    NewOnes(events, Window(KeysIn(codec, fixed)))
  }

  /** What a batch append may leave of a repaired log. */
  ghost predicate AppendedTo(
    codec: Codec, fixed: seq<Byte>, events: seq<Event>, fate: Fate, after: seq<Byte>, r: Appended)
  {
    var added := Added(codec, fixed, events);
    var line := Line(codec, added);
    match r
    case Recorded(recorded) =>
      && recorded == added && Completed(codec, fixed).Ok? && AllWellFormed(added)
      && Completed(codec, after) == Then(Completed(codec, fixed), Ok(added))
      && (if added == [] then after == fixed
          else after == fixed + line && |line| <= MAX_PENDING_RECORD_BYTES && Cut(fate, |line|) == None)
    case Error(problem) =>
      || (after == fixed && !Sound(codec, fixed))
      || (Completed(codec, fixed).Ok? && added != [] &&
          if |line| > MAX_PENDING_RECORD_BYTES then after == fixed && problem == TooLong
          else after == fixed + line && !Sound(codec, after) && Cut(fate, |line|) == None)
    case _ =>
      && Completed(codec, fixed).Ok? && added != [] && |line| <= MAX_PENDING_RECORD_BYTES
      && fate.Stops? && fate.crash == r.Crashed? && fate.written <= |line|
      && after == fixed + line[..fate.written]
  }

  /** The body of `appendRecordedInboundBatch` once the tail is repaired. */
  method AppendToRepaired(codec: Codec, file: File, index: RecordIdentityIndex, events: seq<Event>, fate: Fate)
    returns (after: File, r: Appended)
    requires codec.Lawful() && Tail(file.bytes) == [] && index.Valid() && index.Trusts(codec, file)
    modifies index, index.reader
    ensures index.Valid() && index.Trusts(codec, after)
    ensures after.inode == file.inode && file.bytes <= after.bytes
    ensures AppendedTo(codec, file.bytes, events, fate, after.bytes, r)
    ensures r.Recorded? ==> index.Stands(codec, after.bytes)
    ensures r.Unconfirmed? || r.Crashed? || (r.Error? && after == file && Sound(codec, file.bytes)) ==>
      index.Stands(codec, file.bytes)
  {
    hide Tail, Lines, Window, AllWellFormed, Spaced;
    after := file;
    var synced := index.Sync(codec, after);
    if synced.Failed? {
      return after, Error(synced.problem);
    }
    assert file.bytes[..|file.bytes|] == file.bytes;
    index.UsedIndexTrusts(codec, file.bytes, file);
    var recorded := FilterBatch(events, index.seen);
    if recorded == [] {
      NothingAdded(codec, file.bytes);
      return after, Recorded([]);
    }
    var line := codec.encode(recorded) + [NEWLINE];
    if |line| > MAX_PENDING_RECORD_BYTES {
      return after, Error(TooLong);
    }
    if fate.Stops? && fate.written <= |line| {
      after := file.(bytes := file.bytes + line[..fate.written]);
      index.UsedIndexTrusts(codec, file.bytes, after);
      return after, if fate.crash then Crashed else Unconfirmed;
    }
    after := file.(bytes := file.bytes + line);
    LineParses(codec, file.bytes, recorded);
    index.UsedIndexTrusts(codec, file.bytes, after);
    synced := index.Sync(codec, after);
    assert after.bytes[..|after.bytes|] == after.bytes;
    r := if synced.Failed? then Error(synced.problem) else Recorded(recorded);
  }

  lemma NothingAdded(codec: Codec, log: seq<Byte>)
    requires Completed(codec, log).Ok?
    ensures Completed(codec, log) == Then(Completed(codec, log), Ok([])) && AllWellFormed([])
  {
    assert Completed(codec, log).events + [] == Completed(codec, log).events;
  }

  /** The index can be used on this file, once it is repaired. */
  ghost predicate Usable(codec: Codec, index: RecordIdentityIndex, file: File)
    reads index, index.reader
  {
    && index.Valid()
    && (Repaired(codec, file.bytes).Fine? ==>
          index.Trusts(codec, file.(bytes := Repaired(codec, file.bytes).bytes)))
  }

  /** `appendRecordedInboundBatch` on an existing file, under the recorder lock. */
  method AppendRecordedInboundBatch(
    codec: Codec, file: File, index: RecordIdentityIndex, events: seq<Event>, fate: Fate)
    returns (after: File, r: Appended)
    requires codec.Lawful() && Usable(codec, index, file)
    modifies index, index.reader
    ensures Usable(codec, index, after) && after.inode == file.inode
    ensures events == [] ==> r == Recorded([]) && after == file && unchanged(index) && unchanged(index.reader)
    ensures events != [] ==> Appends(codec, file.bytes, events, fate, after.bytes, r)
    ensures events != [] && BatchLog(codec, file.bytes) && r.Recorded? ==>
      Leaves(codec, file.bytes, events, after.bytes, r.events)
    ensures events != [] && BatchLog(codec, file.bytes) && BatchLog(codec, after.bytes) ==>
      Repaired(codec, file.bytes).Fine? &&
      index.Stands(codec, if r.Recorded? then after.bytes else Repaired(codec, file.bytes).bytes)
  {
    hide Tail, Lines, Window, AllWellFormed, Spaced, BatchLog, Repaired, Sound, AppendedTo;
    if events == [] {
      return file, Recorded([]);
    }
    var repair := PrepareRecorderTail(codec, file.bytes);
    if repair.Refused? {
      if BatchLog(codec, file.bytes) {
        NotBoth(codec, file.bytes);
      }
      return file, Error(repair.problem);
    }
    NoTailAfterRepair(codec, file.bytes);
    ghost var fixed := file.(bytes := repair.bytes);
    after, r := AppendToRepaired(codec, file.(bytes := repair.bytes), index, events, fate);
    if BatchLog(codec, file.bytes) {
      RepairKeepsBatchLog(codec, file.bytes);
      AppendKeepsBatchLogIff(codec, fixed.bytes, events, fate, after.bytes, r);
      BatchLogIsSound(codec, fixed.bytes);
      if r.Recorded? {
        LeavesNewOnes(codec, file.bytes, events, fate, after.bytes, r);
      }
    }
    if Repaired(codec, after.bytes).Fine? {
      StillUsable(codec, index, fixed, after, events, fate, r);
    }
  }

  lemma BatchLogIsSound(codec: Codec, log: seq<Byte>)
    requires BatchLog(codec, log)
    ensures Sound(codec, log)
  {
  }

  ghost predicate Appends(
    codec: Codec, log: seq<Byte>, events: seq<Event>, fate: Fate, after: seq<Byte>, r: Appended)
  {
    match Repaired(codec, log)
    case Fine(fixed) => AppendedTo(codec, fixed, events, fate, after, r)
    case Refused(problem) => r == Error(problem) && after == log
  }

  lemma NoTailAfterRepair(codec: Codec, log: seq<Byte>)
    requires codec.BlanksAreNoText() && Repaired(codec, log).Fine?
    ensures Tail(Repaired(codec, log).bytes) == []
  {
    RepairKeepsReads(codec, log);
  }

  lemma StillUsable(
    codec: Codec, index: RecordIdentityIndex, fixed: File, after: File, events: seq<Event>, fate: Fate, r: Appended)
    requires codec.Lawful() && Tail(fixed.bytes) == [] && index.Valid() && index.Trusts(codec, after)
    requires AppendedTo(codec, fixed.bytes, events, fate, after.bytes, r)
    requires r.Unconfirmed? || r.Crashed? ==> index.Stands(codec, fixed.bytes)
    requires Repaired(codec, after.bytes).Fine?
    ensures index.Trusts(codec, after.(bytes := Repaired(codec, after.bytes).bytes))
  {
    hide Tail, Lines, AllWellFormed, Sound, Added;
    var added := Added(codec, fixed.bytes, events);
    LineLeavesNoTail(codec, fixed.bytes, added);
    if r.Unconfirmed? || r.Crashed? {
      CrashIsAllOrNothing(codec, fixed.bytes, added, fate.written);
      var repaired := after.(bytes := Repaired(codec, after.bytes).bytes);
      assert fixed.bytes <= repaired.bytes;
      index.UsedIndexTrusts(codec, fixed.bytes, repaired);
    }
  }

  // ---------------------------------------------------------------------------------------------
  // What an append adds, event by event

  /** It differs, in provider, thread, id or direction, from each of the last 4096 records and from each earlier
      event of the batch. */
  ghost predicate IsNew(records: seq<Event>, events: seq<Event>, i: nat)
    requires i < |events|
  {
    && (forall k | 0 <= k < |records| && |records| - k <= 4096 :: !SameRecord(records[k], events[i]))
    && (forall k | 0 <= k < i :: !SameRecord(events[k], events[i]))
  }

  /** `added` has the new events of the batch, at ascending places `at`, and no others. */
  ghost predicate HasNewOnes(records: seq<Event>, events: seq<Event>, added: seq<Event>, at: seq<nat>) {
    && |at| == |added| && (forall k | 0 <= k < |at| :: at[k] < |events| && added[k] == events[at[k]])
    && (forall j, k | 0 <= j < k < |at| :: at[j] < at[k])
    && (forall i | 0 <= i < |events| :: i in at <==> IsNew(records, events, i))
  }

  ghost predicate AddsNewOnes(records: seq<Event>, events: seq<Event>, added: seq<Event>) {
    exists at :: HasNewOnes(records, events, added, at)
  }

  lemma RecentIff(records: seq<Event>, e: Event)
    ensures KeyOf(e) in Recent(KeysOf(records)) <==>
      exists k | 0 <= k < |records| && |records| - k <= 4096 :: SameRecord(records[k], e)
  {
    hide KeyOf, SameRecord;
    var keys, recent := KeysOf(records), Recent(KeysOf(records));
    var from := |keys| - |recent|;
    assert forall k | 0 <= k < |recent| :: recent[k] == keys[from + k] == KeyOf(records[from + k]);
    forall k | 0 <= k < |records| ensures SameRecord(records[k], e) <==> KeyOf(records[k]) == KeyOf(e) {
      SameKeyIff(records[k], e);
    }
    if k :| 0 <= k < |records| && |records| - k <= 4096 && SameRecord(records[k], e) {
      assert recent[k - from] == KeyOf(e);
    }
  }

  lemma LastIsNewIff(records: seq<Event>, events: seq<Event>)
    requires events != []
    ensures var before, last := NewOnes(events[..|events| - 1], Recent(KeysOf(records))), events[|events| - 1];
      IsNew(records, events, |events| - 1) <==>
        KeyOf(last) !in Recent(KeysOf(records)) && KeyOf(last) !in KeysOf(before)
  {
    var seen := Recent(KeysOf(records));
    var init, last := events[..|events| - 1], events[|events| - 1];
    var before := NewOnes(init, seen);
    RecentIff(records, last);
    hide KeyOf, SameRecord, NewOnes, Recent;
    forall k | 0 <= k < |init| ensures SameRecord(events[k], last) <==> KeyOf(init[k]) == KeyOf(last) {
      SameKeyIff(events[k], last);
    }
    if KeyOf(last) in KeysOf(before) {
      var j :| 0 <= j < |before| && KeysOf(before)[j] == KeyOf(last);
      assert before[j] in before && before[j] in init;
    }
    if k :| 0 <= k < |init| && SameRecord(events[k], last) {
      assert init[k] in init;
    }
  }

  lemma {:induction false} PlacesOfNewOnes(records: seq<Event>, events: seq<Event>) returns (at: seq<nat>)
    ensures HasNewOnes(records, events, NewOnes(events, Recent(KeysOf(records))), at)
  {
    if events == [] {
      at := [];
    } else {
      var seen, init := Recent(KeysOf(records)), events[..|events| - 1];
      at := PlacesOfNewOnes(records, init);
      LastIsNewIff(records, events);
      OneMorePlace(records, events, NewOnes(init, seen), at);
      at := if IsNew(records, events, |init|) then at + [|init|] else at;
      hide KeyOf, Recent, IsNew, HasNewOnes;
    }
  }

  lemma OneMorePlace(records: seq<Event>, events: seq<Event>, before: seq<Event>, at: seq<nat>)
    requires events != [] && HasNewOnes(records, events[..|events| - 1], before, at)
    ensures var n := |events| - 1;
      if IsNew(records, events, n) then HasNewOnes(records, events, before + [events[n]], at + [n])
      else HasNewOnes(records, events, before, at)
  {
    var n := |events| - 1;
    SameNews(records, events);
    hide IsNew;
    assert n !in at;
    assert forall i :: i in at + [n] <==> i in at || i == n;
  }

  lemma SameNews(records: seq<Event>, events: seq<Event>)
    requires events != []
    ensures forall i | 0 <= i < |events| - 1 :: IsNew(records, events, i) <==> IsNew(records, events[..|events| - 1], i)
  {
    hide SameRecord;
  }

  /** What is added to a batch log. */
  lemma AddedAreNew(codec: Codec, fixed: seq<Byte>, events: seq<Event>)
    requires BatchLog(codec, fixed)
    ensures AddsNewOnes(Completed(codec, fixed).events, events, Added(codec, fixed, events))
  {
    var records := Completed(codec, fixed).events;
    SpacedWindow(KeysOf(records));
    var at := PlacesOfNewOnes(records, events);
  }

  /** The log says what it said once it was repaired, and then the new events of the batch. */
  ghost predicate Leaves(codec: Codec, log: seq<Byte>, events: seq<Event>, after: seq<Byte>, recorded: seq<Event>) {
    && Repaired(codec, log).Fine?
    && Completed(codec, Repaired(codec, log).bytes).Ok?
    && var records := Completed(codec, Repaired(codec, log).bytes).events;
    && Completed(codec, after) == Ok(records + recorded) && AddsNewOnes(records, events, recorded)
  }

  lemma LeavesNewOnes(codec: Codec, log: seq<Byte>, events: seq<Event>, fate: Fate, after: seq<Byte>, r: Appended)
    requires codec.Lawful() && BatchLog(codec, log) && Appends(codec, log, events, fate, after, r) && r.Recorded?
    ensures Leaves(codec, log, events, after, r.events)
  {
    hide Tail, Lines, Sound, AllWellFormed;
    RepairKeepsBatchLog(codec, log);
    AddedAreNew(codec, Repaired(codec, log).bytes, events);
    hide Repaired, Added, AddsNewOnes, BatchLog;
  }

  // ---------------------------------------------------------------------------------------------
  // Which appends keep a batch log

  /** The append brings in the whole text of a batch that cannot be read back. */
  ghost predicate Dooms(codec: Codec, fixed: seq<Byte>, events: seq<Event>, fate: Fate) {
    var added := Added(codec, fixed, events);
    var length := |Line(codec, added)|;
    && !AllWellFormed(added) && length <= MAX_PENDING_RECORD_BYTES
    && (Cut(fate, length) == None || fate.written >= |codec.encode(added)|)
  }

  /** After an append to a batch log there is a batch log, with equal keys more than 4096 records apart,
      exactly if the append did not bring in a batch that cannot be read back; that dooms the log. */
  lemma AppendKeepsBatchLogIff(
    codec: Codec, fixed: seq<Byte>, events: seq<Event>, fate: Fate, after: seq<Byte>, r: Appended)
    requires codec.Lawful() && BatchLog(codec, fixed) && Tail(fixed) == []
    requires AppendedTo(codec, fixed, events, fate, after, r)
    ensures BatchLog(codec, after) <==> !Dooms(codec, fixed, events, fate)
    ensures Dooms(codec, fixed, events, fate) ==> Doomed(codec, after) && !r.Recorded?
    ensures r.Error? ==> Dooms(codec, fixed, events, fate) || (after == fixed && r.problem == TooLong)
  {
    hide Tail, Lines, AllWellFormed, Spaced, Window;
    var added := Added(codec, fixed, events);
    var line := Line(codec, added);
    if added != [] && |line| <= MAX_PENDING_RECORD_BYTES {
      var k := if Cut(fate, |line|) == None then |line| else fate.written;
      assert line[..|line|] == line;
      LineMayFollow(codec, fixed, events);
      if Dooms(codec, fixed, events, fate) {
        UnreadableBatchDooms(codec, fixed, added, k);
        LineParses(codec, fixed, added);
      } else {
        TornBatchKeeps(codec, fixed, added, k);
      }
    }
    if added == [] {
      NothingAdded(codec, fixed);
    }
    if BatchLog(codec, after) {
      NotBoth(codec, after);
    }
  }

  lemma LineMayFollow(codec: Codec, fixed: seq<Byte>, events: seq<Event>)
    requires Completed(codec, fixed).Ok? && |Line(codec, Added(codec, fixed, events))| <= MAX_PENDING_RECORD_BYTES
    ensures MayFollow(codec, KeysOf(Completed(codec, fixed).events), Added(codec, fixed, events))
  {
    hide Window;
    var added := Added(codec, fixed, events);
    forall k | k in KeysOf(added) ensures k !in Window(KeysIn(codec, fixed)) {
      var i :| 0 <= i < |added| && KeysOf(added)[i] == k;
      assert added[i] in added;
    }
  }

  /** Only well-formed events are added if only well-formed ones are given. */
  lemma WellFormedDoesNotDoom(codec: Codec, fixed: seq<Byte>, events: seq<Event>, fate: Fate)
    requires AllWellFormed(events)
    ensures !Dooms(codec, fixed, events, fate)
  {
  }

  /** An append to a doomed log fails and changes nothing. */
  lemma DoomedAppend(codec: Codec, log: seq<Byte>, events: seq<Event>, fate: Fate, after: seq<Byte>, r: Appended)
    requires codec.BlanksAreNoText() && Doomed(codec, log) && Appends(codec, log, events, fate, after, r)
    ensures r.Error? && after == log
  {
  }

  /** An event without an id is written, and then nothing can be read. */
  lemma EmptyIdDooms(codec: Codec, e: Event, after: seq<Byte>, r: Appended)
    requires codec.Lawful() && e.id == "" && |Line(codec, [e])| <= MAX_PENDING_RECORD_BYTES
    requires AppendedTo(codec, [], [e], Completes, after, r)
    ensures r.Error? && after == Line(codec, [e])
    ensures ReadAll(codec, after) == Failed(Envelope)
  {
    assert Completed(codec, []) == Ok([]) && KeysIn(codec, []) == [];
    OneIsAdded(e);
    assert !WellFormed(e) && e in [e];
    LineParses(codec, [], [e]);
    LineLeavesNoTail(codec, [], [e]);
    assert [] + Line(codec, [e]) == Line(codec, [e]);
  }

  lemma OneIsAdded(e: Event)
    ensures NewOnes([e], Window([])) == [e]
  {
    assert [e][..0] == [];
    assert NewOnes([], []) == [];
    assert KeyOf(e) !in Window([]) && KeysOf([]) == [];
  }

  /** As long as the log holds no more records than the window, a batch of known keys adds nothing. */
  lemma KnownBatchAddsNothing(keys: seq<Key>, events: seq<Event>)
    requires Spaced(keys) && |keys| <= MAX_RECENT_RECORD_KEYS && forall e <- events :: KeyOf(e) in keys
    ensures NewOnes(events, Window(keys)) == []
  {
    SpacedWindow(keys);
    assert forall e <- NewOnes(events, Window(keys)) :: e in events && KeyOf(e) in keys;
  }

  /** After an append that was recorded, the log has the keys of all its events. */
  lemma RecordedIsKnown(codec: Codec, fixed: seq<Byte>, events: seq<Event>, fate: Fate, after: seq<Byte>, r: Appended)
    requires AppendedTo(codec, fixed, events, fate, after, r) && r.Recorded?
    ensures forall e <- events :: KeyOf(e) in KeysIn(codec, after)
  {
    hide Window, AllWellFormed, Line, NewOnes;
    var added := Added(codec, fixed, events);
    var known := Completed(codec, fixed).events;
    assert KeysOf(known + added) == KeysOf(known) + KeysOf(added);
    WindowIsKnown(KeysOf(known));
  }

  lemma {:induction false} WindowIsKnown(keys: seq<Key>)
    ensures forall k <- Window(keys) :: k in keys
  {
    if keys != [] {
      var init, last := keys[..|keys| - 1], keys[|keys| - 1];
      WindowIsKnown(init);
      assert forall k <- Remember(Window(init), last) :: k in Window(init) || k == last;
    }
  }

  // ---------------------------------------------------------------------------------------------
  // Runs: any number of processes, each with an index that it keeps from one append to the next

  /** The index stands after a completed line of the log. */
  ghost predicate Ready(codec: Codec, index: RecordIdentityIndex, file: File)
    reads index, index.reader
  {
    index.Valid() && index.Knows(codec, file.bytes) && Tail(file.bytes[..index.reader.offset]) == []
  }

  ghost predicate Fit(codec: Codec, index: RecordIdentityIndex, file: File)
    reads index, index.reader
  {
    if Doomed(codec, file.bytes) then Usable(codec, index, file) else Ready(codec, index, file)
  }

  lemma OffsetWithinRepaired(codec: Codec, log: seq<Byte>, offset: nat)
    requires offset <= |log| && Tail(log[..offset]) == [] && Repaired(codec, log).Fine?
    ensures var fixed := Repaired(codec, log).bytes; offset <= |fixed| && log[..offset] == fixed[..offset]
  {
    TailShape(log);
    TailShape(log[..offset]);
    if offset > 0 {
      assert log[offset - 1] == log[..offset][offset - 1] == NEWLINE;
    }
  }

  lemma ReadyAfterRepair(codec: Codec, index: RecordIdentityIndex, file: File, after: File)
    requires Ready(codec, index, file) && Repaired(codec, file.bytes).Fine?
    requires Repaired(codec, file.bytes).bytes <= after.bytes
    ensures Ready(codec, index, after)
  {
    OffsetWithinRepaired(codec, file.bytes, index.reader.offset);
    hide Tail, Repaired, Indexed;
    assert after.bytes[..index.reader.offset] == file.bytes[..index.reader.offset];
  }

  lemma ReadyIsUsable(codec: Codec, index: RecordIdentityIndex, file: File)
    requires Ready(codec, index, file)
    ensures Usable(codec, index, file)
  {
    if Repaired(codec, file.bytes).Fine? {
      var fixed := file.(bytes := Repaired(codec, file.bytes).bytes);
      ReadyAfterRepair(codec, index, file, fixed);
      index.UsedIndexTrusts(codec, fixed.bytes, fixed);
    }
  }

  /** The index of a process that does not take part fits the log as it is afterwards. */
  lemma OthersFit(codec: Codec, index: RecordIdentityIndex, file: File, after: File)
    requires Fit(codec, index, file) && Succeeds(codec, file, after)
    ensures Fit(codec, index, after)
  {
    hide Doomed, Repaired, Usable, Ready;
    if after != file {
      ReadyAfterRepair(codec, index, file, after);
      ReadyIsUsable(codec, index, after);
    }
  }

  /** A doomed log stays as it is, another one is repaired before it grows. */
  ghost predicate Succeeds(codec: Codec, file: File, after: File) {
    && after.inode == file.inode
    && (after == file || (
          && !Doomed(codec, file.bytes) && Repaired(codec, file.bytes).Fine?
          && Repaired(codec, file.bytes).bytes <= after.bytes))
  }

  ghost predicate Proper(codec: Codec, log: seq<Byte>) {
    BatchLog(codec, log) || Doomed(codec, log)
  }

  lemma LogAfter(codec: Codec, file: File, events: seq<Event>, fate: Fate, after: File, r: Appended)
    requires codec.Lawful() && Proper(codec, file.bytes) && after.inode == file.inode
    requires Appends(codec, file.bytes, events, fate, after.bytes, r)
    ensures Proper(codec, after.bytes) && Succeeds(codec, file, after)
  {
    hide Tail, Lines, BatchLog, Repaired, Sound;
    if BatchLog(codec, file.bytes) {
      NotBoth(codec, file.bytes);
      RepairKeepsBatchLog(codec, file.bytes);
      AppendKeepsBatchLogIff(codec, Repaired(codec, file.bytes).bytes, events, fate, after.bytes, r);
    } else {
      DoomedAppend(codec, file.bytes, events, fate, after.bytes, r);
    }
  }

  /** The index of the process that took part, which lives. */
  lemma OwnFits(
    codec: Codec, index: RecordIdentityIndex, file: File, events: seq<Event>, fate: Fate, after: File, r: Appended)
    requires codec.Lawful() && Proper(codec, file.bytes) && Proper(codec, after.bytes)
    requires Appends(codec, file.bytes, events, fate, after.bytes, r) && Succeeds(codec, file, after)
    requires Usable(codec, index, after)
    requires BatchLog(codec, file.bytes) && BatchLog(codec, after.bytes) ==>
      Repaired(codec, file.bytes).Fine? &&
      index.Stands(codec, if r.Recorded? then after.bytes else Repaired(codec, file.bytes).bytes)
    ensures Fit(codec, index, after)
  {
    hide Tail, Lines, BatchLog, Repaired, Sound, AppendedTo, Indexed;
    if !Doomed(codec, after.bytes) {
      if Doomed(codec, file.bytes) {
        DoomedAppend(codec, file.bytes, events, fate, after.bytes, r);
      } else {
        RepairKeepsBatchLog(codec, file.bytes);
        var fixed := Repaired(codec, file.bytes).bytes;
        if r.Recorded? {
          NoTailAfterRecord(codec, fixed, events, fate, after.bytes, r);
        }
        AppendGrows(codec, fixed, events, fate, after.bytes, r);
        var stand := if r.Recorded? then after.bytes else fixed;
        assert stand[..|stand|] == stand && after.bytes[..|stand|] == stand;
        index.UsedIndexTrusts(codec, stand, after);
      }
    }
  }

  lemma AppendGrows(codec: Codec, fixed: seq<Byte>, events: seq<Event>, fate: Fate, after: seq<Byte>, r: Appended)
    requires AppendedTo(codec, fixed, events, fate, after, r)
    ensures fixed <= after
  {
  }

  lemma NoTailAfterRecord(
    codec: Codec, fixed: seq<Byte>, events: seq<Event>, fate: Fate, after: seq<Byte>, r: Appended)
    requires codec.Lawful() && Tail(fixed) == [] && AppendedTo(codec, fixed, events, fate, after, r) && r.Recorded?
    ensures Tail(after) == []
  {
    LineLeavesNoTail(codec, fixed, Added(codec, fixed, events));
  }

  lemma FreshIndexFits(codec: Codec, index: RecordIdentityIndex, file: File)
    requires index.Valid() && index.reader.Fresh() && index.seen == []
    ensures Fit(codec, index, file)
  {
    EmptyPrefix(codec, file.bytes);
    ReadyIsUsable(codec, index, file);
  }

  lemma FitIsUsable(codec: Codec, index: RecordIdentityIndex, file: File)
    requires Fit(codec, index, file)
    ensures Usable(codec, index, file)
  {
    if !Doomed(codec, file.bytes) {
      ReadyIsUsable(codec, index, file);
    }
  }

  datatype Job = Append(process: nat, events: seq<Event>, fate: Fate) | Forget(process: nat)

  /** What one job does to the log. */
  ghost predicate Wrote(codec: Codec, log: seq<Byte>, job: Job, after: seq<Byte>, r: Appended) {
    if job.Forget? || job.events == [] then after == log && r == Recorded([])
    else Appends(codec, log, job.events, job.fate, after, r)
  }

  /** The log and the index of each process that has one. */
  class Recorders {
    var file: File
    var indexes: map<nat, RecordIdentityIndex>

    ghost function Readers(): set<IncrementalReader>
      reads this, indexes.Values
    {
      set i | i in indexes.Values :: i.reader
    }

    ghost predicate Apart()
      reads this, indexes.Values
    {
      forall p, q | p in indexes && q in indexes && p != q ::
        indexes[p] != indexes[q] && indexes[p].reader != indexes[q].reader
    }

    ghost predicate Valid(codec: Codec)
      reads this, indexes.Values, Readers()
    {
      && Proper(codec, file.bytes)
      && Apart()
      && forall p <- indexes :: Fit(codec, indexes[p], file)
    }

    constructor (codec: Codec, inode: nat)
      requires codec.Lawful()
      ensures Valid(codec) && file == File(inode, []) && indexes == map[]
    {
      file := File(inode, []);
      indexes := map[];
      new;
      EmptyPrefix(codec, []);
      ShortLinesIff([]);
    }

    /** The index of the process, a new one if it has none. */
    method IndexOf(codec: Codec, process: nat) returns (index: RecordIdentityIndex)
      requires Valid(codec)
      modifies `indexes
      ensures Valid(codec) && process in indexes && index == indexes[process]
      ensures indexes.Keys == old(indexes).Keys + {process}
      ensures forall p <- old(indexes) :: indexes[p] == old(indexes)[p]
      ensures process !in old(indexes) ==> fresh(index) && fresh(index.reader)
    {
      hide Fit, Proper;
      if process !in indexes {
        index := new RecordIdentityIndex();
        FreshIndexFits(codec, index, file);
        indexes := indexes[process := index];
      }
      index := indexes[process];
    }

    method AppendBy(codec: Codec, process: nat, events: seq<Event>, fate: Fate) returns (r: Appended)
      requires codec.Lawful() && Valid(codec) && process in indexes
      modifies `file, indexes[process], indexes[process].reader
      ensures Valid(codec) && file.inode == old(file.inode)
      ensures Wrote(codec, old(file.bytes), Append(process, events, fate), file.bytes, r)
    {
      hide Proper, Fit, Usable, Appends, Succeeds, BatchLog, Repaired;
      var index := indexes[process];
      FitIsUsable(codec, index, file);
      ghost var before := file;
      var after;
      after, r := AppendRecordedInboundBatch(codec, file, index, events, fate);
      if events != [] {
        LogAfter(codec, before, events, fate, after, r);
        OwnFits(codec, index, before, events, fate, after, r);
        forall p <- indexes | p != process ensures Fit(codec, indexes[p], after) {
          OthersFit(codec, indexes[p], before, after);
        }
      }
      file := after;
    }

    /** One job: an append by a process, whose death takes its index; or an index that is dropped, as the least
        recently used one of a process with many logs is. */
    method Handle(codec: Codec, job: Job) returns (r: Appended)
      requires codec.Lawful() && Valid(codec)
      modifies this, indexes.Values, Readers()
      ensures Valid(codec) && file.inode == old(file.inode)
      ensures forall i <- indexes.Values :: i in old(indexes.Values) || fresh(i)
      ensures forall i <- Readers() :: i in old(Readers()) || fresh(i)
      ensures Wrote(codec, old(file.bytes), job, file.bytes, r)
    {
      hide Proper, Fit, Appends;
      if job.Forget? {
        indexes := indexes - {job.process};
        return Recorded([]);
      }
      var _ := IndexOf(codec, job.process);
      r := AppendBy(codec, job.process, job.events, job.fate);
      if r.Crashed? {
        indexes := indexes - {job.process};
      }
    }

    /** Jobs one after the other.  A batch of events each of which was recorded before, by whatever process, is not
        recorded again by any later job while the log has at most 4096 records: the log is repaired, and no more. */
    method Work(codec: Codec, jobs: seq<Job>) returns (logs: seq<seq<Byte>>, results: seq<Appended>)
      requires codec.Lawful() && Valid(codec)
      modifies this, indexes.Values, Readers()
      ensures Valid(codec) && file.inode == old(file.inode)
      ensures WroteAll(codec, logs, jobs, results) && logs[0] == old(file.bytes) && logs[|jobs|] == file.bytes
      ensures Proper(codec, logs[0])
      ensures RecordsOnce(codec, logs, jobs, results)
    {
      hide Repaired, AppendedTo, Wrote, Fit, Proper, RecordsOnce;
      logs, results := [file.bytes], [];
      assert jobs[..0] == [];
      for i := 0 to |jobs|
        invariant Valid(codec) && file.inode == old(file.inode)
        invariant forall x <- indexes.Values :: x in old(indexes.Values) || fresh(x)
        invariant forall x <- Readers() :: x in old(Readers()) || fresh(x)
        invariant WroteAll(codec, logs, jobs[..i], results) && logs[0] == old(file.bytes) && logs[i] == file.bytes
      {
        var r := Handle(codec, jobs[i]);
        OneMoreJob(codec, logs, jobs, results, i, file.bytes, r);
        logs, results := logs + [file.bytes], results + [r];
      }
      assert jobs[..|jobs|] == jobs;
      NeverAgain(codec, logs, jobs, results);
    }
  }

  ghost predicate WroteAll(codec: Codec, logs: seq<seq<Byte>>, jobs: seq<Job>, results: seq<Appended>) {
    && |logs| == |jobs| + 1 && |results| == |jobs|
    && forall i | 0 <= i < |jobs| :: Wrote(codec, logs[i], jobs[i], logs[i + 1], results[i])
  }

  lemma OneMoreJob(
    codec: Codec, logs: seq<seq<Byte>>, jobs: seq<Job>, results: seq<Appended>, i: nat, after: seq<Byte>, r: Appended)
    requires i < |jobs| && WroteAll(codec, logs, jobs[..i], results) && Wrote(codec, logs[i], jobs[i], after, r)
    ensures WroteAll(codec, logs + [after], jobs[..i + 1], results + [r])
  {
    hide Wrote;
    forall k | 0 <= k < i + 1
      ensures Wrote(codec, (logs + [after])[k], jobs[..i + 1][k], (logs + [after])[k + 1], (results + [r])[k])
    {
      assert k < i ==> jobs[..i][k] == jobs[k];
    }
  }

  function AfterRepair(codec: Codec, log: seq<Byte>): seq<Byte> {
    var repair := Repaired(codec, log); if repair.Fine? then repair.bytes else log
  }

  ghost predicate RecordsOnce(codec: Codec, logs: seq<seq<Byte>>, jobs: seq<Job>, results: seq<Appended>)
    requires |jobs| == |results| < |logs|
  {
    forall j | 0 <= j < |jobs| && Repeats(codec, logs, jobs, results, j) ::
      results[j] == Recorded([]) && logs[j + 1] == AfterRepair(codec, logs[j])
  }

  lemma NeverAgain(codec: Codec, logs: seq<seq<Byte>>, jobs: seq<Job>, results: seq<Appended>)
    requires codec.Lawful() && WroteAll(codec, logs, jobs, results) && Proper(codec, logs[0])
    ensures RecordsOnce(codec, logs, jobs, results)
  {
    hide Proper, Wrote, AfterRepair, Repeats;
    forall j | 0 <= j < |jobs| && Repeats(codec, logs, jobs, results, j)
      ensures results[j] == Recorded([]) && logs[j + 1] == AfterRepair(codec, logs[j])
    {
      NotAgain(codec, logs, jobs, results, j);
    }
  }

  /** The job is for events of which each was in a batch that an earlier job recorded; the log is readable, and has
      at most 4096 records. */
  ghost predicate Repeats(codec: Codec, logs: seq<seq<Byte>>, jobs: seq<Job>, results: seq<Appended>, j: nat)
    requires j < |jobs| == |results| < |logs|
  {
    && jobs[j].Append? && jobs[j].events != [] && BatchLog(codec, logs[j])
    && |KeysIn(codec, AfterRepair(codec, logs[j]))| <= MAX_RECENT_RECORD_KEYS
    && forall e <- jobs[j].events :: RecordedBefore(jobs, results, j, e)
  }

  predicate RecordedBefore(jobs: seq<Job>, results: seq<Appended>, j: nat, e: Event)
    requires j < |jobs| == |results|
  {
    exists i :: 0 <= i < j && jobs[i].Append? && results[i].Recorded? && e in jobs[i].events
  }

  lemma NotAgain(codec: Codec, logs: seq<seq<Byte>>, jobs: seq<Job>, results: seq<Appended>, j: nat)
    requires codec.Lawful() && WroteAll(codec, logs, jobs, results) && Proper(codec, logs[0])
    requires j < |jobs| && Repeats(codec, logs, jobs, results, j)
    ensures results[j] == Recorded([]) && logs[j + 1] == AfterRepair(codec, logs[j])
  {
    hide Tail, Lines, Wrote, BatchLog, AfterRepair, Proper, RecordedBefore, KeysIn;
    var log := logs[j];
    forall e | e in jobs[j].events ensures KeyOf(e) in KeysIn(codec, log) {
      StaysKnown(codec, logs, jobs, results, j, e);
    }
    RepairedKeys(codec, log);
    assert Wrote(codec, logs[j], jobs[j], logs[j + 1], results[j]);
    KnownAddsNothing(codec, log, jobs[j], logs[j + 1], results[j]);
  }

  lemma KnownAddsNothing(codec: Codec, log: seq<Byte>, job: Job, after: seq<Byte>, r: Appended)
    requires codec.Lawful() && BatchLog(codec, log) && Wrote(codec, log, job, after, r)
    requires job.Append? && job.events != []
    requires var keys := KeysIn(codec, AfterRepair(codec, log));
      |keys| <= MAX_RECENT_RECORD_KEYS && forall e <- job.events :: KeyOf(e) in keys
    ensures r == Recorded([]) && after == AfterRepair(codec, log)
  {
    hide Tail, Lines, Line, Window, NewOnes, AllWellFormed;
    var fixed := AfterRepair(codec, log);
    RepairKeepsBatchLog(codec, log);
    hide Repaired;
    BatchLogIsSound(codec, fixed);
    KnownBatchAddsNothing(KeysIn(codec, fixed), job.events);
  }

  /** What the log says only grows. */
  lemma KeysGrow(codec: Codec, log: seq<Byte>, longer: seq<Byte>)
    requires Lines(log) <= Lines(longer) && Completed(codec, longer).Ok?
    ensures KeysIn(codec, log) <= KeysIn(codec, longer)
  {
    hide Tail, Lines;
    var rest := Lines(longer)[|Lines(log)|..];
    assert Lines(longer) == Lines(log) + rest;
    ParseConcat(codec, Lines(log), rest);
  }

  lemma RepairedKeys(codec: Codec, log: seq<Byte>)
    requires codec.Lawful() && BatchLog(codec, log)
    ensures KeysIn(codec, log) <= KeysIn(codec, AfterRepair(codec, log))
  {
    hide Tail, Lines, Repaired, KeysIn;
    RepairKeepsBatchLog(codec, log);
    KeysGrow(codec, log, AfterRepair(codec, log));
  }

  lemma JobGrowsKeys(codec: Codec, log: seq<Byte>, job: Job, after: seq<Byte>, r: Appended)
    requires codec.Lawful() && BatchLog(codec, log) && BatchLog(codec, after) && Wrote(codec, log, job, after, r)
    ensures KeysIn(codec, log) <= KeysIn(codec, after)
  {
    if job.Append? && job.events != [] {
      NotBoth(codec, log);
      var fixed := Repaired(codec, log).bytes;
      RepairKeepsBatchLog(codec, log);
      AppendGrows(codec, fixed, job.events, job.fate, after, r);
      hide Repaired, Tail, Lines, KeysIn, Completed, Wrote;
      LinesGrow(fixed, after);
      KeysGrow(codec, log, after);
    }
  }

  lemma LinesGrow(log: seq<Byte>, longer: seq<Byte>)
    requires log <= longer
    ensures Lines(log) <= Lines(longer)
  {
    hide Lines, Tail;
    assert longer == log + longer[|log|..];
    LinesOfConcat(log, longer[|log|..]);
  }

  lemma {:induction false} StaysKnown(
    codec: Codec, logs: seq<seq<Byte>>, jobs: seq<Job>, results: seq<Appended>, j: nat, e: Event)
    requires codec.Lawful() && WroteAll(codec, logs, jobs, results) && Proper(codec, logs[0])
    requires j < |jobs| && BatchLog(codec, logs[j]) && RecordedBefore(jobs, results, j, e)
    ensures KeyOf(e) in KeysIn(codec, logs[j])
    decreases j
  {
    hide Wrote, BatchLog, Proper, KeysIn;
    var i :| 0 <= i < j && jobs[i].Append? && results[i].Recorded? && e in jobs[i].events;
    var log, after := logs[j - 1], logs[j];
    assert Wrote(codec, logs[j - 1], jobs[j - 1], logs[j], results[j - 1]);
    ProperUpTo(codec, logs, jobs, results, j - 1);
    JobKeepsBatchLogIff(codec, log, jobs[j - 1], after, results[j - 1]);
    if i == j - 1 {
      JobIsKnown(codec, log, jobs[i], after, results[i]);
    } else {
      assert RecordedBefore(jobs, results, j - 1, e);
      StaysKnown(codec, logs, jobs, results, j - 1, e);
      JobGrowsKeys(codec, log, jobs[j - 1], after, results[j - 1]);
    }
  }

  lemma JobIsKnown(codec: Codec, log: seq<Byte>, job: Job, after: seq<Byte>, r: Appended)
    requires Wrote(codec, log, job, after, r) && job.Append? && r.Recorded?
    ensures forall e <- job.events :: KeyOf(e) in KeysIn(codec, after)
  {
    hide Repaired, AppendedTo, KeysIn;
    if job.events != [] {
      assert Appends(codec, log, job.events, job.fate, after, r) && Repaired(codec, log).Fine?;
      RecordedIsKnown(codec, Repaired(codec, log).bytes, job.events, job.fate, after, r);
    }
  }

  lemma {:induction false} ProperUpTo(
    codec: Codec, logs: seq<seq<Byte>>, jobs: seq<Job>, results: seq<Appended>, i: nat)
    requires codec.Lawful() && WroteAll(codec, logs, jobs, results) && Proper(codec, logs[0]) && i <= |jobs|
    ensures Proper(codec, logs[i])
  {
    hide Wrote, Proper;
    if i > 0 {
      ProperUpTo(codec, logs, jobs, results, i - 1);
      assert Wrote(codec, logs[i - 1], jobs[i - 1], logs[i], results[i - 1]);
      JobIsProper(codec, logs[i - 1], jobs[i - 1], logs[i], results[i - 1]);
    }
  }

  lemma JobIsProper(codec: Codec, log: seq<Byte>, job: Job, after: seq<Byte>, r: Appended)
    requires codec.Lawful() && Proper(codec, log) && Wrote(codec, log, job, after, r)
    ensures Proper(codec, after)
  {
    hide Proper, Appends;
    if job.Append? && job.events != [] {
      LogAfter(codec, File(0, log), job.events, job.fate, File(0, after), r);
    }
  }

  /** The job brings in the whole text of a batch that cannot be read back. */
  ghost predicate DoomingJob(codec: Codec, log: seq<Byte>, job: Job) {
    && job.Append? && job.events != []
    && Repaired(codec, log).Fine? && Dooms(codec, Repaired(codec, log).bytes, job.events, job.fate)
  }

  ghost predicate Chained(codec: Codec, log: seq<Byte>, job: Job, after: seq<Byte>) {
    && (BatchLog(codec, after) <==> BatchLog(codec, log) && !DoomingJob(codec, log, job))
    && (!BatchLog(codec, log) ==> after == log)
    && (BatchLog(codec, log) && job.Append? && AllWellFormed(job.events) ==> BatchLog(codec, after))
  }

  lemma JobKeepsBatchLogIff(codec: Codec, log: seq<Byte>, job: Job, after: seq<Byte>, r: Appended)
    requires codec.Lawful() && Proper(codec, log) && Wrote(codec, log, job, after, r)
    ensures Chained(codec, log, job, after)
  {
    hide Tail, Lines, BatchLog, Repaired, Sound, AppendedTo, Dooms;
    if BatchLog(codec, log) {
      NotBoth(codec, log);
      if job.Append? && job.events != [] {
        RepairKeepsBatchLog(codec, log);
        AppendKeepsBatchLogIff(codec, Repaired(codec, log).bytes, job.events, job.fate, after, r);
        if AllWellFormed(job.events) {
          WellFormedDoesNotDoom(codec, Repaired(codec, log).bytes, job.events, job.fate);
        }
      }
    } else if job.Append? && job.events != [] {
      DoomedAppend(codec, log, job.events, job.fate, after, r);
    }
  }

  ghost predicate ChainedAll(codec: Codec, logs: seq<seq<Byte>>, jobs: seq<Job>) {
    |logs| == |jobs| + 1 && forall i | 0 <= i < |jobs| :: Chained(codec, logs[i], jobs[i], logs[i + 1])
  }

  lemma ForgettingDoomsNothing(codec: Codec, log: seq<Byte>, job: Job)
    ensures job.Forget? ==> !DoomingJob(codec, log, job)
  {
  }

  lemma {:induction false} BatchLogUntilDoomed(codec: Codec, logs: seq<seq<Byte>>, jobs: seq<Job>, i: nat)
    requires ChainedAll(codec, logs, jobs) && BatchLog(codec, logs[0]) && i <= |jobs|
    ensures BatchLog(codec, logs[i]) <==> forall j | 0 <= j < i :: !DoomingJob(codec, logs[j], jobs[j])
    ensures (forall job <- jobs | job.Append? :: AllWellFormed(job.events)) ==> BatchLog(codec, logs[i])
  {
    hide BatchLog, DoomingJob, AllWellFormed;
    if i > 0 {
      BatchLogUntilDoomed(codec, logs, jobs, i - 1);
      assert Chained(codec, logs[i - 1], jobs[i - 1], logs[i]);
      ForgettingDoomsNothing(codec, logs[i - 1], jobs[i - 1]);
    }
  }

  /** From an empty log on, whatever is appended by whatever processes, each with the index that it keeps, and
      wherever each may fail or die: the log is a batch log, and so has equal keys more than 4096 records apart,
      exactly until a job brings in a batch that cannot be read back; then it stays as it is. */
  method AppendAll(codec: Codec, inode: nat, jobs: seq<Job>) returns (run: Recorders, logs: seq<seq<Byte>>)
    requires codec.Lawful()
    ensures run.Valid(codec)
    ensures |logs| == |jobs| + 1 && logs[0] == [] && logs[|jobs|] == run.file.bytes
    ensures forall i | 0 <= i <= |jobs| ::
      BatchLog(codec, logs[i]) <==> forall j | 0 <= j < i :: !DoomingJob(codec, logs[j], jobs[j])
    ensures forall i | 0 <= i < |jobs| && !BatchLog(codec, logs[i]) :: logs[i + 1] == logs[i]
    ensures (forall job <- jobs | job.Append? :: AllWellFormed(job.events)) ==> BatchLog(codec, run.file.bytes)
  {
    run := new Recorders(codec, inode);
    hide BatchLog, DoomingJob, Wrote, AllWellFormed, Fit, Proper, Chained, Repeats, Repaired;
    var results;
    logs, results := run.Work(codec, jobs);
    EmptyIsBatchLog(codec);
    ChainOf(codec, logs, jobs, results);
    forall i | 0 <= i <= |jobs|
      ensures BatchLog(codec, logs[i]) <==> forall j | 0 <= j < i :: !DoomingJob(codec, logs[j], jobs[j])
    {
      BatchLogUntilDoomed(codec, logs, jobs, i);
    }
    BatchLogUntilDoomed(codec, logs, jobs, |jobs|);
    forall i | 0 <= i < |jobs| && !BatchLog(codec, logs[i]) ensures logs[i + 1] == logs[i] {
      UnreadableStays(codec, logs[i], jobs[i], logs[i + 1]);
    }
  }

  lemma UnreadableStays(codec: Codec, log: seq<Byte>, job: Job, after: seq<Byte>)
    requires Chained(codec, log, job, after) && !BatchLog(codec, log)
    ensures after == log
  {
  }

  lemma ChainOf(codec: Codec, logs: seq<seq<Byte>>, jobs: seq<Job>, results: seq<Appended>)
    requires codec.Lawful() && WroteAll(codec, logs, jobs, results) && Proper(codec, logs[0])
    ensures ChainedAll(codec, logs, jobs)
  {
    hide Wrote, Proper, Chained;
    forall i | 0 <= i < |jobs| ensures Chained(codec, logs[i], jobs[i], logs[i + 1]) {
      ProperUpTo(codec, logs, jobs, results, i);
      JobKeepsBatchLogIff(codec, logs[i], jobs[i], logs[i + 1], results[i]);
    }
  }

  lemma EmptyIsBatchLog(codec: Codec)
    ensures BatchLog(codec, [])
  {
    ShortLinesIff([]);
  }
}

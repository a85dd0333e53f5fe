/** `waitForRecordedInbound` of src/providers/recorder.ts: each call takes the next matching event of
    the log, however the reads cut the log and whatever calls went before. */
module RecorderWait {
  import opened Common
  import opened RecorderLog
  import opened RecorderReader
  import opened RecorderAppend

  /** `early` says of a time of sending that it is before `since`; without `since` it never is. */
  datatype Filters = Filters(direction: Option<string>, early: string -> bool, matches: Event -> bool)

  /** What reads deliver: records, and notices that the file was replaced. */
  datatype Item = Record(event: Event) | NewGeneration

  datatype Selection = Selection(seen: seq<Key>, chosen: seq<Event>)

  /** The reference: pass one item after the other. */
  function Select(f: Filters, items: seq<Item>): Selection {
    if items == [] then Selection([], [])
    else SelectNext(f, Select(f, items[..|items| - 1]), items[|items| - 1])
  }

  function SelectNext(f: Filters, s: Selection, item: Item): Selection {
    match item
    case NewGeneration => s.(seen := [])
    case Record(e) =>
      if f.direction.Some? && DirectionOf(e) != f.direction.value then s
      else if KeyOf(e) in s.seen then s
      else
        var s' := s.(seen := Remember(s.seen, KeyOf(e)));
        if f.early(e.sentAt) then s'
        else if f.matches(e) then s'.(chosen := s.chosen + [e]) else s'
  }

  function Records(events: seq<Event>): seq<Item> {
    seq(|events|, i requires 0 <= i < |events| => Record(events[i]))
  }

  lemma RecordsConcat(a: seq<Event>, b: seq<Event>)
    ensures Records(a + b) == Records(a) + Records(b)
  {
  }

  datatype Waited = Found(event: Event) | Nothing | Threw(problem: Problem)

  class RecordedInboundCursor {
    const reader: IncrementalReader
    var buffered: seq<Event>
    var seen: seq<Key>
    ghost var delivered: seq<Item>  // by all reads so far
    ghost var passed: seq<Item>     // of those, the ones examined
    ghost var returned: seq<Event>  // by all calls so far

    constructor (ghost f: Filters)
      ensures Valid(f) && fresh(reader) && reader.Fresh()
      ensures delivered == [] && returned == []
    {
      reader := new IncrementalReader();
      buffered, seen := [], [];
      delivered, passed, returned := [], [], [];
    }

    /** Calls so far returned what the reference chooses among the items examined so far. */
    ghost predicate Valid(f: Filters)
      reads this, reader
    {
      && reader.Valid()
      && delivered == passed + Records(buffered)
      && Select(f, passed) == Selection(seen, returned)
    }

    /** The reads so far delivered the completed lines of this log up to the offset, and nothing else. */
    ghost predicate Follows(codec: Codec, source: Option<File>)
      reads this, reader
    {
      && reader.Valid()
      && match source
         case None => reader.Blank() && delivered == []
         case Some(file) =>
           && reader.Tracks(file.bytes) && reader.identity in {None, Some(file.inode)}
           && var read := Completed(codec, file.bytes[..reader.offset]);
              read.Ok? && delivered == Records(read.events)
    }

    /** Examine events up to the first that is chosen; the rest waits in the buffer. */
    method Examine(f: Filters, events: seq<Event>) returns (r: Waited)
      requires buffered == [] && delivered == passed + Records(events)
      requires Select(f, passed) == Selection(seen, returned)
      modifies `buffered, `seen, `passed, `returned
      ensures delivered == passed + Records(buffered) && Select(f, passed) == Selection(seen, returned)
      ensures old(passed) <= passed
      ensures match r
        case Found(e) =>
          returned == old(returned) + [e] && Passes(f, e) && !f.early(e.sentAt) && f.matches(e)
        case Nothing => returned == old(returned) && buffered == []
        case Threw(_) => false
    {
      hide Remember, KeyOf, DirectionOf, Passes;
      for index := 0 to |events|
        invariant buffered == [] && old(passed) <= passed && returned == old(returned)
        invariant delivered == passed + Records(events[index..])
        invariant Select(f, passed) == Selection(seen, returned)
      {
        var event := events[index];
        assert Records(events[index..]) == [Record(event)] + Records(events[index + 1..]);
        passed := passed + [Record(event)];
        assert passed[..|passed| - 1] + [Record(event)] == passed;
        if f.direction.Some? && DirectionOf(event) != f.direction.value {
          continue;
        }
        if KeyOf(event) in seen {
          continue;
        }
        seen := Remember(seen, KeyOf(event));
        if f.early(event.sentAt) {
          continue;
        }
        if f.matches(event) {
          PassesIff(f, event);
          buffered := events[index + 1..];
          returned := returned + [event];
          return Found(event);
        }
      }
      r := Nothing;
    }

    /** One read: its events are delivered, after a notice if the generation changed. */
    method Poll(codec: Codec, ghost f: Filters, source: Option<File>)
      returns (events: seq<Event>, failed: Option<Problem>)
      requires Valid(f) && buffered == []
      modifies this, reader
      ensures reader.Valid() && returned == old(returned) && buffered == []
      ensures delivered == passed + Records(events) && Select(f, passed) == Selection(seen, returned)
      ensures old(delivered) <= delivered && old(passed) <= passed
      ensures failed.Some? ==> events == [] && unchanged(this) && unchanged(reader)
      ensures old(Follows(codec, source)) ==> Follows(codec, source)
    {
      hide Tail, Completed, Select;
      var generation := reader.generation;
      var from := reader.offset;
      ghost var follows := Follows(codec, source);
      if follows && source.Some? {
        TrackerContinues(reader, source.value);
      }
      var r := reader.ReadAppend(codec, source, false);
      if r.Failed? {
        return [], Some(r.problem);
      }
      ghost var before := delivered;
      Deliver(f, r.events, reader.generation != generation);
      if follows && source.Some? {
        PrefixesAgree(codec, source.value.bytes, from, reader.offset);
        RecordsConcat(Completed(codec, source.value.bytes[..from]).events, r.events);
      }
      events, failed := r.events, None;
    }

    method Deliver(ghost f: Filters, ghost events: seq<Event>, turned: bool)
      requires delivered == passed + Records([]) && Select(f, passed) == Selection(seen, returned)
      modifies `seen, `passed, `delivered
      ensures delivered == passed + Records(events) && Select(f, passed) == Selection(seen, returned)
      ensures old(delivered) <= delivered && old(passed) <= passed
      ensures !turned ==> delivered == old(delivered) + Records(events)
    {
      assert delivered == passed;
      if turned {
        seen := [];
        ghost var init := passed;
        passed := passed + [NewGeneration];
        assert passed[..|passed| - 1] == init;
      }
      delivered := passed + Records(events);
    }

    /** One call; `polls` are the states of the file at its reads, and the call times out after them. */
    method WaitForRecordedInbound(codec: Codec, f: Filters, polls: seq<Option<File>>) returns (r: Waited)
      requires Valid(f)
      modifies this, reader
      ensures Valid(f) && old(delivered) <= delivered && old(passed) <= passed
      ensures match r
        case Found(e) =>
          returned == old(returned) + [e] && Passes(f, e) && !f.early(e.sentAt) && f.matches(e)
        case Nothing => returned == old(returned) && (polls != [] ==> buffered == [])
        case Threw(_) => returned == old(returned) && buffered == []
      ensures Growing(polls) && old(Follows(codec, polls[0])) ==> Follows(codec, polls[|polls| - 1])
    {
      ghost var follows := Growing(polls) && Follows(codec, polls[0]);
      hide Select;
      for i := 0 to |polls|
        invariant Valid(f) && old(delivered) <= delivered && old(passed) <= passed && returned == old(returned)
        invariant i > 0 ==> buffered == []
        invariant follows ==> Follows(codec, polls[if i == 0 then 0 else i - 1])
      {
        if follows && i > 0 {
          FollowsGrowth(codec, polls[i - 1], polls[i]);
        }
        var events;
        if |buffered| > 0 {
          events := buffered;
          buffered := [];
        } else {
          var failed;
          events, failed := Poll(codec, f, polls[i]);
          if failed.Some? {
            if follows {
              FollowsLater(codec, polls, i);
            }
            return Threw(failed.value);
          }
        }
        r := Examine(f, events);
        if r.Found? {
          if follows {
            FollowsLater(codec, polls, i);
          }
          return;
        }
      }
      r := Nothing;
    }

    lemma FollowsAtFirst(codec: Codec, source: Option<File>)
      requires reader.Fresh() && reader.Valid() && delivered == []
      ensures Follows(codec, source)
    {
      if source.Some? {
        EmptyPrefix(codec, source.value.bytes);
      }
    }

    lemma FollowsGrowth(codec: Codec, source: Option<File>, longer: Option<File>)
      requires Follows(codec, source) && Grows(source, longer)
      ensures Follows(codec, longer)
    {
      if source.Some? {
        assert longer.value.bytes[..reader.offset] == source.value.bytes[..reader.offset];
      } else if longer.Some? {
        EmptyPrefix(codec, longer.value.bytes);
      }
    }

    lemma FollowsLater(codec: Codec, polls: seq<Option<File>>, i: nat)
      requires Growing(polls) && i < |polls| && Follows(codec, polls[i])
      ensures Follows(codec, polls[|polls| - 1])
      decreases |polls| - i
    {
      if i + 1 < |polls| {
        FollowsGrowth(codec, polls[i], polls[i + 1]);
        FollowsLater(codec, polls, i + 1);
      }
    }
  }

  /** Once there, the file stays and only grows. */
  predicate Grows(source: Option<File>, longer: Option<File>) {
    source.Some? ==>
      longer.Some? && source.value.inode == longer.value.inode && source.value.bytes <= longer.value.bytes
  }

  predicate Growing(polls: seq<Option<File>>) {
    polls != [] && forall i | 0 <= i < |polls| - 1 :: Grows(polls[i], polls[i + 1])
  }

  // ---------------------------------------------------------------------------------------------
  // What calls return, in terms of the log

  /** Choosing is prefix-stable: what is chosen stays chosen, in order, when more is read. */
  lemma {:induction false} SelectionGrows(f: Filters, items: seq<Item>, more: seq<Item>)
    ensures Select(f, items).chosen <= Select(f, items + more).chosen
  {
    if more == [] {
      assert items + more == items;
    } else {
      SelectionGrows(f, items, more[..|more| - 1]);
      assert (items + more)[..|items + more| - 1] == items + more[..|more| - 1];
    }
  }

  /** Nothing is lost: a record that passes every filter, and whose key is not among the last 4096
      that passed the direction filter before it, is chosen at its place. */
  lemma PassingRecordIsChosen(f: Filters, before: seq<Item>, e: Event, after: seq<Item>)
    requires f.direction.Some? ==> DirectionOf(e) == f.direction.value
    requires KeyOf(e) !in Select(f, before).seen
    requires !f.early(e.sentAt) && f.matches(e)
    ensures Select(f, before).chosen + [e] <= Select(f, before + [Record(e)] + after).chosen
  {
    assert (before + [Record(e)])[..|before|] == before;
    SelectionGrows(f, before + [Record(e)], after);
  }

  // ---------------------------------------------------------------------------------------------
  // Which records are chosen, without passing them one after the other

  /** The direction filter. */
  predicate Passes(f: Filters, e: Event) {
    f.direction.Some? ==> HasDirection(e, f.direction.value)
  }

  /** The file was not replaced between the two. */
  ghost predicate SameGeneration(items: seq<Item>, j: int, i: int)
    requires 0 <= j && i <= |items|
  {
    forall k | j < k < i :: items[k].Record?
  }

  function Between(novel: set<nat>, j: nat, i: nat): set<nat> {
    set k | k in novel && j < k < i
  }

  /** A record in the filter's direction, and no other of its identity is among the last 4096 novel ones of its
      generation. */
  ghost predicate IsNovel(f: Filters, items: seq<Item>, novel: set<nat>, i: nat)
    requires i < |items|
  {
    && items[i].Record? && Passes(f, items[i].event)
    && forall j <- novel | j < i && items[j].Record? && SameGeneration(items, j, i) &&
         SameRecord(items[j].event, items[i].event) :: |Between(novel, j, i)| >= 4096
  }

  ghost predicate Novel(f: Filters, items: seq<Item>, novel: set<nat>) {
    && (forall i <- novel :: i < |items|)
    && (forall i | 0 <= i < |items| :: i in novel <==> IsNovel(f, items, novel, i))
  }

  /** Chosen are the novel records that are not early and match. */
  predicate IsWanted(f: Filters, items: seq<Item>, novel: set<nat>, i: nat)
    requires i < |items|
  {
    i in novel && items[i].Record? && !f.early(items[i].event.sentAt) && f.matches(items[i].event)
  }

  predicate IsAscending(a: seq<nat>) {
    forall j, k | 0 <= j < k < |a| :: a[j] < a[k]
  }

  /** They are `chosen`, at the ascending places `at`. */
  ghost predicate Lists(f: Filters, items: seq<Item>, novel: set<nat>, at: seq<nat>, chosen: seq<Event>) {
    && |at| == |chosen| && (forall k | 0 <= k < |at| :: at[k] < |items| && items[at[k]] == Record(chosen[k]))
    && IsAscending(at)
    && (forall i | 0 <= i < |items| :: i in at <==> IsWanted(f, items, novel, i))
  }

  ghost predicate ChosenFrom(f: Filters, items: seq<Item>, chosen: seq<Event>) {
    exists novel, at :: Novel(f, items, novel) && Lists(f, items, novel, at, chosen)
  }

  /** `order` has the places of the keys seen: the last novel records of the generation. */
  ghost predicate Orders(items: seq<Item>, novel: set<nat>, order: seq<nat>, seen: seq<Key>) {
    && |order| == |seen| <= 4096
    && IsAscending(order)
    && (forall k | 0 <= k < |order| :: IsOrdered(items, novel, order[k], seen[k]))
    && (forall j | InGeneration(items, novel, j) && j !in order :: |order| == 4096 && j < order[0])
  }

  ghost predicate InGeneration(items: seq<Item>, novel: set<nat>, j: nat) {
    j in novel && j < |items| && items[j].Record? && SameGeneration(items, j, |items|)
  }

  ghost predicate IsOrdered(items: seq<Item>, novel: set<nat>, j: nat, key: Key) {
    InGeneration(items, novel, j) && KeyOf(items[j].event) == key
  }

  function Elements(a: seq<nat>): set<nat> {
    set x | x in a
  }

  lemma {:induction false} SizeOfAscending(a: seq<nat>)
    requires IsAscending(a)
    ensures |Elements(a)| == |a|
  {
    if a != [] {
      var init, last := a[..|a| - 1], a[|a| - 1];
      SizeOfAscending(init);
      forall x ensures x in Elements(a) <==> x in Elements(init) || x == last {
        assert a == init + [last];
      }
      assert Elements(a) == Elements(init) + {last} && last !in init;
    }
  }

  lemma SizeOfPart(a: set<nat>, b: set<nat>)
    requires a <= b
    ensures |a| <= |b|
  {
    assert b == a + (b - a);
  }

  /** A key in the window belongs to one of the last 4096 novel records. */
  lemma SeenIsNear(items: seq<Item>, novel: set<nat>, order: seq<nat>, seen: seq<Key>, k: nat)
    requires Orders(items, novel, order, seen) && k < |order|
    requires forall i <- novel :: i < |items| && items[i].Record?
    ensures |Between(novel, order[k], |items|)| < 4096
  {
    var later := order[k + 1..];
    SizeOfAscending(later);
    assert IsOrdered(items, novel, order[k], seen[k]);
    forall i | i in Between(novel, order[k], |items|) ensures i in later {
      assert InGeneration(items, novel, i);
      assert i in order;
      var m :| 0 <= m < |order| && order[m] == i;
      assert m > k;
      assert later[m - k - 1] == i;
    }
    SizeOfPart(Between(novel, order[k], |items|), Elements(later));
  }

  /** A novel record of the generation whose key has left the window is that far away. */
  lemma UnseenIsFar(items: seq<Item>, novel: set<nat>, order: seq<nat>, seen: seq<Key>, j: nat)
    requires Orders(items, novel, order, seen) && InGeneration(items, novel, j) && j !in order
    ensures |Between(novel, j, |items|)| >= 4096
  {
    SizeOfAscending(order);
    forall i | i in order ensures i in Between(novel, j, |items|) {
      var m :| 0 <= m < |order| && order[m] == i;
      assert IsOrdered(items, novel, order[m], seen[m]);
    }
    SizeOfPart(Elements(order), Between(novel, j, |items|));
  }

  lemma OrderedIsSeen(items: seq<Item>, novel: set<nat>, order: seq<nat>, seen: seq<Key>)
    requires Orders(items, novel, order, seen)
    ensures forall j <- order :: InGeneration(items, novel, j) && KeyOf(items[j].event) in seen
  {
    hide KeyOf;
    forall j | j in order ensures InGeneration(items, novel, j) && KeyOf(items[j].event) in seen {
      var k :| 0 <= k < |order| && order[k] == j;
      assert IsOrdered(items, novel, order[k], seen[k]);
    }
  }

  lemma NovelIffUnseen(f: Filters, items: seq<Item>, novel: set<nat>, order: seq<nat>, seen: seq<Key>, e: Event)
    requires Novel(f, items, novel) && Orders(items, novel, order, seen)
    ensures IsNovel(f, items + [Record(e)], novel, |items|) <==> Passes(f, e) && KeyOf(e) !in seen
  {
    hide KeyOf, SameRecord, Between, Passes;
    var longer := items + [Record(e)];
    forall j | j in novel ensures longer[j] == items[j] && items[j].Record? {
      assert IsNovel(f, items, novel, j);
    }
    forall j | j in novel
      ensures SameRecord(items[j].event, e) <==> KeyOf(items[j].event) == KeyOf(e)
      ensures SameGeneration(longer, j, |items|) <==> SameGeneration(items, j, |items|)
    {
      SameKeyIff(items[j].event, e);
      assert forall k | j < k < |items| :: longer[k] == items[k];
    }
    if KeyOf(e) in seen {
      var k :| 0 <= k < |seen| && seen[k] == KeyOf(e);
      assert IsOrdered(items, novel, order[k], seen[k]);
      SeenIsNear(items, novel, order, seen, k);
    } else {
      OrderedIsSeen(items, novel, order, seen);
      forall j: nat | InGeneration(items, novel, j) && KeyOf(items[j].event) == KeyOf(e)
        ensures |Between(novel, j, |items|)| >= 4096
      {
        UnseenIsFar(items, novel, order, seen, j);
      }
    }
  }

  /** What is novel does not depend on what comes later. */
  lemma NovelStays(f: Filters, items: seq<Item>, novel: set<nat>, longer: seq<Item>, more: set<nat>, i: nat)
    requires i < |items| && items <= longer && (forall k | k < |items| :: k in novel <==> k in more)
    requires forall k <- novel :: k < |items|
    ensures IsNovel(f, items, novel, i) <==> IsNovel(f, longer, more, i)
  {
    hide SameRecord, Passes;
    forall j | 0 <= j < i
      ensures SameGeneration(items, j, i) <==> SameGeneration(longer, j, i)
      ensures Between(novel, j, i) == Between(more, j, i)
    {
    }
  }

  lemma NovelGrows(f: Filters, items: seq<Item>, novel: set<nat>, item: Item, more: set<nat>)
    requires Novel(f, items, novel)
    requires more == if IsNovel(f, items + [item], novel, |items|) then novel + {|items|} else novel
    ensures Novel(f, items + [item], more)
  {
    hide IsNovel;
    var longer := items + [item];
    forall i | 0 <= i < |items| ensures IsNovel(f, items, novel, i) <==> IsNovel(f, longer, more, i) {
      NovelStays(f, items, novel, longer, more, i);
    }
    LastIsNovel(f, longer, novel, more);
  }

  lemma LastIsNovel(f: Filters, items: seq<Item>, novel: set<nat>, more: set<nat>)
    requires items != [] && (forall i <- novel :: i < |items| - 1)
    requires more == novel || more == novel + {|items| - 1}
    ensures IsNovel(f, items, novel, |items| - 1) <==> IsNovel(f, items, more, |items| - 1)
  {
    hide SameRecord, Passes, SameGeneration;
    var n := |items| - 1;
    forall j | 0 <= j < n ensures Between(novel, j, n) == Between(more, j, n) {
    }
  }

  lemma ListsGrow(
    f: Filters, items: seq<Item>, novel: set<nat>, at: seq<nat>, chosen: seq<Event>, item: Item, more: set<nat>)
    requires Lists(f, items, novel, at, chosen) && (forall i <- novel :: i < |items|)
    requires more == novel || more == novel + {|items|}
    ensures var longer := items + [item];
      if IsWanted(f, longer, more, |items|) then Lists(f, longer, more, at + [|items|], chosen + [item.event])
      else Lists(f, longer, more, at, chosen)
  {
    var longer := items + [item];
    assert |items| !in at;
    assert forall i :: i in at + [|items|] <==> i in at || i == |items|;
    assert forall i | 0 <= i < |items| :: IsWanted(f, longer, more, i) <==> IsWanted(f, items, novel, i);
  }

  /** A new generation starts with nothing seen. */
  lemma OrdersAnew(items: seq<Item>, novel: set<nat>)
    requires forall i <- novel :: i < |items|
    ensures Orders(items + [NewGeneration], novel, [], [])
  {
    var longer := items + [NewGeneration];
    forall j | j in novel ensures !InGeneration(longer, novel, j) {
      assert !longer[|items|].Record?;
    }
  }

  lemma OrdersStay(items: seq<Item>, novel: set<nat>, order: seq<nat>, seen: seq<Key>, e: Event)
    requires Orders(items, novel, order, seen) && (forall i <- novel :: i < |items|)
    ensures Orders(items + [Record(e)], novel, order, seen)
  {
    hide KeyOf;
    InGenerationStays(items, novel, e);
    var longer := items + [Record(e)];
    forall k | 0 <= k < |order| ensures IsOrdered(longer, novel, order[k], seen[k]) {
      assert IsOrdered(items, novel, order[k], seen[k]);
    }
  }

  lemma InGenerationStays(items: seq<Item>, novel: set<nat>, e: Event)
    requires forall i <- novel :: i < |items|
    ensures forall j :: InGeneration(items + [Record(e)], novel, j) <==> InGeneration(items, novel, j)
    ensures forall j :: InGeneration(items + [Record(e)], novel + {|items|}, j) <==>
      InGeneration(items, novel, j) || j == |items|
  {
    var longer := items + [Record(e)];
    forall j | j in novel
      ensures SameGeneration(longer, j, |longer|) <==> SameGeneration(items, j, |items|)
    {
      assert forall k | j < k < |items| :: longer[k] == items[k];
      assert longer[|items|].Record?;
    }
  }

  lemma OrdersGrow(items: seq<Item>, novel: set<nat>, order: seq<nat>, seen: seq<Key>, e: Event)
    returns (next: seq<nat>)
    requires Orders(items, novel, order, seen) && (forall i <- novel :: i < |items|) && KeyOf(e) !in seen
    ensures Orders(items + [Record(e)], novel + {|items|}, next, Remember(seen, KeyOf(e)))
  {
    hide KeyOf, InGeneration, Orders;
    InGenerationStays(items, novel, e);
    var longer, more := items + [Record(e)], novel + {|items|};
    PushKeeps(items, novel, order, seen, e);
    OrdersSize(items, novel, order, seen);
    next := order + [|items|];
    if |next| > 4096 {
      DropKeeps(longer, more, next, seen + [KeyOf(e)]);
      next := next[1..];
    } else {
      AllFit(longer, more, next, seen + [KeyOf(e)]);
    }
  }

  lemma AllFit(items: seq<Item>, novel: set<nat>, order: seq<nat>, seen: seq<Key>)
    requires OrdersAll(items, novel, order, seen) && |order| <= 4096
    ensures Orders(items, novel, order, seen)
  {
    hide IsOrdered, InGeneration;
  }

  lemma OrdersSize(items: seq<Item>, novel: set<nat>, order: seq<nat>, seen: seq<Key>)
    requires Orders(items, novel, order, seen)
    ensures |order| == |seen| <= 4096
  {
  }

  /** As `Orders`, before the oldest one goes. */
  ghost predicate OrdersAll(items: seq<Item>, novel: set<nat>, order: seq<nat>, seen: seq<Key>) {
    && |order| == |seen| <= 4097
    && IsAscending(order)
    && (forall k | 0 <= k < |order| :: IsOrdered(items, novel, order[k], seen[k]))
    && (forall j | InGeneration(items, novel, j) && j !in order :: |order| >= 4096 && j < order[0])
  }

  lemma PushKeeps(items: seq<Item>, novel: set<nat>, order: seq<nat>, seen: seq<Key>, e: Event)
    requires Orders(items, novel, order, seen) && (forall i <- novel :: i < |items|)
    ensures OrdersAll(items + [Record(e)], novel + {|items|}, order + [|items|], seen + [KeyOf(e)])
  {
    hide KeyOf, InGeneration;
    InGenerationStays(items, novel, e);
    var longer, more := items + [Record(e)], novel + {|items|};
    forall k | 0 <= k < |order| ensures order[k] < |items| && IsOrdered(longer, more, order[k], seen[k]) {
      IsOrderedStays(items, novel, longer, more, order[k], seen[k]);
    }
    NewIsOrdered(items, novel, e);
    assert forall j :: j in order + [|items|] <==> j in order || j == |items|;
  }

  lemma NewIsOrdered(items: seq<Item>, novel: set<nat>, e: Event)
    ensures IsOrdered(items + [Record(e)], novel + {|items|}, |items|, KeyOf(e))
  {
  }

  lemma DropKeeps(items: seq<Item>, novel: set<nat>, order: seq<nat>, seen: seq<Key>)
    requires OrdersAll(items, novel, order, seen) && |order| == 4097
    ensures Orders(items, novel, order[1..], seen[1..])
  {
    hide IsOrdered, InGeneration;
    var rest := order[1..];
    assert forall j :: j in rest <==> j in order && j != order[0];
  }

  lemma IsOrderedStays(items: seq<Item>, novel: set<nat>, longer: seq<Item>, more: set<nat>, j: nat, key: Key)
    requires IsOrdered(items, novel, j, key) && |longer| == |items| + 1 && items <= longer && novel <= more
    requires longer[|items|].Record?
    ensures j < |items| && IsOrdered(longer, more, j, key)
  {
    hide KeyOf;
    assert forall k | j < k < |items| :: longer[k] == items[k];
  }

  /** The reference has such places. */
  lemma {:induction false} PlacesOf(f: Filters, items: seq<Item>)
    returns (novel: set<nat>, at: seq<nat>, order: seq<nat>)
    ensures var s := Select(f, items);
      Novel(f, items, novel) && Lists(f, items, novel, at, s.chosen) && Orders(items, novel, order, s.seen)
  {
    if items == [] {
      novel, at, order := {}, [], [];
    } else {
      var init, item := items[..|items| - 1], items[|items| - 1];
      novel, at, order := PlacesOf(f, init);
      assert items == init + [item];
      novel, at, order := OneMoreItem(f, init, item, novel, at, order);
    }
  }

  lemma OneMoreItem(f: Filters, items: seq<Item>, item: Item, novel: set<nat>, at: seq<nat>, order: seq<nat>)
    returns (novel': set<nat>, at': seq<nat>, order': seq<nat>)
    requires Novel(f, items, novel)
    requires var s := Select(f, items); Lists(f, items, novel, at, s.chosen) && Orders(items, novel, order, s.seen)
    ensures var s := SelectNext(f, Select(f, items), item); var longer := items + [item];
      Novel(f, longer, novel') && Lists(f, longer, novel', at', s.chosen) && Orders(longer, novel', order', s.seen)
  {
    hide Select, KeyOf, IsNovel, Remember, Orders;
    var s, longer := Select(f, items), items + [item];
    novel' := if IsNovel(f, longer, novel, |items|) then novel + {|items|} else novel;
    NovelGrows(f, items, novel, item, novel');
    ListsGrow(f, items, novel, at, s.chosen, item, novel');
    at' := if IsWanted(f, longer, novel', |items|) then at + [|items|] else at;
    if item.NewGeneration? {
      NoticeIsNotNovel(f, items, novel);
      OrdersAnew(items, novel);
      order' := [];
    } else {
      NovelIffUnseen(f, items, novel, order, s.seen, item.event);
      PassesIff(f, item.event);
      OrdersStay(items, novel, order, s.seen, item.event);
      order' := order;
      if IsNovel(f, longer, novel, |items|) {
        order' := OrdersGrow(items, novel, order, s.seen, item.event);
      }
    }
  }

  lemma NoticeIsNotNovel(f: Filters, items: seq<Item>, novel: set<nat>)
    ensures !IsNovel(f, items + [NewGeneration], novel, |items|)
  {
  }

  lemma PassesIff(f: Filters, e: Event)
    ensures Passes(f, e) <==> !(f.direction.Some? && DirectionOf(e) != f.direction.value)
  {
    if f.direction.Some? {
      DirectionIsKnown(e, f.direction.value);
    }
  }

  /** There is only one such set of novel records. */
  lemma {:induction false} OneNovel(f: Filters, items: seq<Item>, a: set<nat>, b: set<nat>, i: nat)
    requires Novel(f, items, a) && Novel(f, items, b) && i <= |items|
    ensures forall k | k < i :: k in a <==> k in b
  {
    if i > 0 {
      var n := i - 1;
      OneNovel(f, items, a, b, n);
      hide SameRecord, Passes, SameGeneration;
      forall j | 0 <= j < n ensures Between(a, j, n) == Between(b, j, n) {
      }
      assert IsNovel(f, items, a, n) <==> IsNovel(f, items, b, n);
    }
  }

  lemma WithoutLast(a: seq<nat>)
    requires IsAscending(a) && a != []
    ensures var last := a[|a| - 1];
      && last in a && (forall x <- a :: x <= last) && IsAscending(a[..|a| - 1])
      && forall x :: x in a[..|a| - 1] <==> x in a && x != last
  {
    var init, last := a[..|a| - 1], a[|a| - 1];
    forall x ensures x in a <==> x in init || x == last {
      assert a == init + [last];
    }
  }

  lemma {:induction false} OneOrder(a: seq<nat>, b: seq<nat>)
    requires IsAscending(a) && IsAscending(b)
    requires forall x :: x in a <==> x in b
    ensures a == b
  {
    assert (a != [] ==> a[0] in a) && (b != [] ==> b[0] in b);
    if a != [] && b != [] {
      WithoutLast(a);
      WithoutLast(b);
      hide IsAscending;
      var init, init' := a[..|a| - 1], b[..|b| - 1];
      assert a[|a| - 1] in b && b[|b| - 1] in a;
      forall x ensures x in init <==> x in init' {
        assert x in a <==> x in b;
      }
      OneOrder(init, init');
      assert a == init + [a[|a| - 1]] && b == init' + [b[|b| - 1]];
    }
  }

  /** The reference chooses exactly the novel records that are not early and match, in order. */
  lemma ChosenIff(f: Filters, items: seq<Item>, chosen: seq<Event>)
    ensures chosen == Select(f, items).chosen <==> ChosenFrom(f, items, chosen)
  {
    hide Select, Novel, Orders;
    var novel, at, _ := PlacesOf(f, items);
    if ChosenFrom(f, items, chosen) {
      var novel', at' :| Novel(f, items, novel') && Lists(f, items, novel', at', chosen);
      SameChoice(f, items, novel, at, Select(f, items).chosen, novel', at', chosen);
    }
  }

  lemma SameChoice(f: Filters, items: seq<Item>, a: set<nat>, at: seq<nat>, chosen: seq<Event>,
    b: set<nat>, bt: seq<nat>, other: seq<Event>)
    requires Novel(f, items, a) && Lists(f, items, a, at, chosen)
    requires Novel(f, items, b) && Lists(f, items, b, bt, other)
    ensures chosen == other
  {
    OneNovel(f, items, a, b, |items|);
    hide Novel;
    forall x ensures x in at <==> x in bt {
    }
    OneOrder(at, bt);
  }

  lemma ChosenPass(f: Filters, items: seq<Item>)
    ensures forall e <- Select(f, items).chosen :: Passes(f, e) && !f.early(e.sentAt) && f.matches(e)
  {
    hide Select;
    var novel, at, _ := PlacesOf(f, items);
    hide Passes, Orders;
    forall k | 0 <= k < |at|
      ensures var e := Select(f, items).chosen[k]; Passes(f, e) && !f.early(e.sentAt) && f.matches(e)
    {
      assert at[k] in at && IsWanted(f, items, novel, at[k]) && IsNovel(f, items, novel, at[k]);
    }
  }

  /** The states of the file at the reads of each call. */
  predicate GrowingCalls(calls: seq<seq<Option<File>>>) {
    && calls != [] && (forall i | 0 <= i < |calls| :: Growing(calls[i]))
    && forall i | 0 <= i < |calls| - 1 :: Grows(Last(calls[i]), calls[i + 1][0])
  }

  function Last(polls: seq<Option<File>>): Option<File>
    requires polls != []
  {
    polls[|polls| - 1]
  }

  function FoundIn(answers: seq<Waited>): seq<Event> {
    if answers == [] then []
    else
      var last := answers[|answers| - 1];
      FoundIn(answers[..|answers| - 1]) + if last.Found? then [last.event] else []
  }

  /** What the reference chooses from the completed lines of a log. */
  function Chosen(codec: Codec, f: Filters, log: seq<Byte>): seq<Event> {
    var r := Completed(codec, log);
    if r.Ok? then Select(f, Records(r.events)).chosen else []
  }

  /** The events are those records of the completed lines that are novel, not early and match, in order. */
  ghost predicate IsAnswer(codec: Codec, f: Filters, log: seq<Byte>, events: seq<Event>) {
    Completed(codec, log).Ok? && ChosenFrom(f, Records(Completed(codec, log).events), events)
  }

  lemma ChosenIsAnswer(codec: Codec, f: Filters, log: seq<Byte>)
    requires Completed(codec, log).Ok?
    ensures IsAnswer(codec, f, log, Chosen(codec, f, log))
  {
    hide Completed, ChosenFrom, Select;
    ChosenIff(f, Records(Completed(codec, log).events), Chosen(codec, f, log));
  }

  lemma NothingFound()
    ensures FoundIn([]) == []
  {
  }

  lemma FoundNext(answers: seq<Waited>, answer: Waited)
    ensures FoundIn(answers + [answer]) == FoundIn(answers) + if answer.Found? then [answer.event] else []
  {
    assert (answers + [answer])[..|answers|] == answers;
  }

  lemma AllChosen(codec: Codec, f: Filters, cursor: RecordedInboundCursor, source: Option<File>)
    requires cursor.Valid(f) && cursor.Follows(codec, source)
    ensures match source
      case None => cursor.returned == []
      case Some(file) =>
        && cursor.reader.offset <= |file.bytes|
        && var read := file.bytes[..cursor.reader.offset];
        && IsAnswer(codec, f, read, Chosen(codec, f, read)) && cursor.returned <= Chosen(codec, f, read)
        && (cursor.buffered == [] ==> cursor.returned == Chosen(codec, f, read))
        && (Completed(codec, file.bytes).Ok? ==> Chosen(codec, f, read) <= Chosen(codec, f, file.bytes))
  {
    hide Tail, Completed, LastBytes, IsAnswer;
    if source.Some? {
      ChosenIsAnswer(codec, f, source.value.bytes[..cursor.reader.offset]);
    }
    SelectionGrows(f, cursor.passed, Records(cursor.buffered));
    assert cursor.passed + [] == cursor.passed;
    if source.Some? && Completed(codec, source.value.bytes).Ok? {
      ChosenGrows(codec, f, source.value.bytes, cursor.reader.offset);
    }
  }

  /** A log whose completed lines parse has what is chosen from any prefix of it, and then perhaps more. */
  lemma ChosenGrows(codec: Codec, f: Filters, log: seq<Byte>, offset: nat)
    requires offset <= |log| && Completed(codec, log).Ok?
    ensures Chosen(codec, f, log[..offset]) <= Chosen(codec, f, log)
  {
    assert log == log[..offset] + log[offset..];
    CompletedConcat(codec, log[..offset], log[offset..]);
    var read, more := Completed(codec, log[..offset]), Completed(codec, Tail(log[..offset]) + log[offset..]);
    RecordsConcat(read.events, more.events);
    SelectionGrows(f, Records(read.events), Records(more.events));
  }

  /** Calls with one new cursor on a growing log find, in order, what the reference chooses from the log: no
      record twice, none out of place and, once all is read and examined, none missing. */
  method FollowLog(codec: Codec, f: Filters, calls: seq<seq<Option<File>>>)
    returns (cursor: RecordedInboundCursor, answers: seq<Waited>)
    requires GrowingCalls(calls)
    ensures |answers| == |calls|
    ensures match Last(calls[|calls| - 1])
      case None => FoundIn(answers) == []
      case Some(file) =>
        && cursor.reader.offset <= |file.bytes|
        && var read := file.bytes[..cursor.reader.offset];
        && IsAnswer(codec, f, read, Chosen(codec, f, read)) && FoundIn(answers) <= Chosen(codec, f, read)
        && (cursor.buffered == [] ==> FoundIn(answers) == Chosen(codec, f, read))
        && (cursor.reader.offset == |file.bytes| ==> read == file.bytes)
        && (Completed(codec, file.bytes).Ok? ==> Chosen(codec, f, read) <= Chosen(codec, f, file.bytes))
  {
    hide Chosen, FoundIn, Select, IsAnswer;
    cursor := new RecordedInboundCursor(f);
    answers := [];
    NothingFound();
    ghost var source := calls[0][0];
    cursor.FollowsAtFirst(codec, source);
    hide RecordedInboundCursor.Follows;
    for i := 0 to |calls|
      invariant fresh(cursor) && fresh(cursor.reader) && cursor.Valid(f)
      invariant |answers| == i && FoundIn(answers) == cursor.returned
      invariant cursor.Follows(codec, source) && source == if i == 0 then calls[0][0] else Last(calls[i - 1])
    {
      if i > 0 {
        assert Grows(Last(calls[i - 1]), calls[i][0]);
        cursor.FollowsGrowth(codec, source, calls[i][0]);
      }
      var answer := cursor.WaitForRecordedInbound(codec, f, calls[i]);
      FoundNext(answers, answer);
      answers, source := answers + [answer], Last(calls[i]);
    }
    AllChosen(codec, f, cursor, source);
  }
}

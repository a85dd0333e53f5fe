/** The bounded JSON size calculator of src/core/run.ts: it must decide, without serializing, how
    many UTF-8 bytes `JSON.stringify` would produce, and may stop as soon as a limit is passed. */
module JsonSize {
  import opened Common

  type Byte = b: int | 0 <= b < 0x100
  type CodeUnit = c: int | 0 <= c < 0x10000
  type Str = seq<CodeUnit>
  type Ref = nat

  /** A finite number carries the text of `String(value)`. */
  datatype Value =
    | Null | Undefined | Function | Symbol | BigInt
    | Boolean(b: bool)
    | Number(finite: bool, text: seq<Byte>)
    | Text(s: Str)
    | Object(r: Ref)

  /** `entries` are the own enumerable properties with text keys, in order.  A boxed primitive, `new Number(1)`,
      is an object too. */
  datatype Node =
    | Array(items: seq<Value>)
    | Record(entries: seq<(Str, Value)>)
    | Boxed(primitive: Value, entries: seq<(Str, Value)>)

  /** Objects by reference, so that a value may be shared or contain itself. */
  type Heap = map<Ref, Node>

  predicate Known(h: Heap, v: Value) {
    v.Object? ==> v.r in h
  }

  predicate Closed(h: Heap) {
    forall r <- h ::
      match h[r]
      case Array(items) => forall v <- items :: Known(h, v)
      case Record(entries) => forall e <- entries :: Known(h, e.1)
      case Boxed(p, entries) => Boxable(p) && forall e <- entries :: Known(h, e.1)
  }

  predicate Boxable(p: Value) {
    p.Boolean? || p.Number? || p.Text? || p.BigInt?
  }

  // ---------------------------------------------------------------------------------------------
  // The reference: QuoteJSONString and SerializeJSONProperty (ECMA-262, section 25.5.2), in UTF-8

  predicate High(c: CodeUnit) {
    0xD800 <= c <= 0xDBFF
  }

  predicate Low(c: CodeUnit) {
    0xDC00 <= c <= 0xDFFF
  }

  /** UTF-8 of one code point (RFC 3629, section 3). */
  function Utf8(cp: int): seq<Byte>
    requires 0 <= cp < 0x110000
  {
    if cp < 0x80 then [cp]
    else if cp < 0x800 then [0xC0 + cp / 0x40, 0x80 + cp % 0x40]
    else if cp < 0x10000 then [0xE0 + cp / 0x1000, 0x80 + cp / 0x40 % 0x40, 0x80 + cp % 0x40]
    else [0xF0 + cp / 0x40000, 0x80 + cp / 0x1000 % 0x40, 0x80 + cp / 0x40 % 0x40, 0x80 + cp % 0x40]
  }

  function Hex(d: int): Byte
    requires 0 <= d < 16
  {
    if d < 10 then 0x30 + d else 0x57 + d
  }

  function UnicodeEscape(c: CodeUnit): seq<Byte> {
    [0x5C, 0x75, Hex(c / 0x1000), Hex(c / 0x100 % 16), Hex(c / 0x10 % 16), Hex(c % 16)]
  }

  function QuoteUnit(c: CodeUnit): seq<Byte> {
    match c
    case 0x08 => [0x5C, 0x62]
    case 0x09 => [0x5C, 0x74]
    case 0x0A => [0x5C, 0x6E]
    case 0x0C => [0x5C, 0x66]
    case 0x0D => [0x5C, 0x72]
    case 0x22 => [0x5C, 0x22]
    case 0x5C => [0x5C, 0x5C]
    case _ => if c < 0x20 || High(c) || Low(c) then UnicodeEscape(c) else Utf8(c)
  }

  predicate StartsPair(s: Str) {
    |s| > 1 && High(s[0]) && Low(s[1])
  }

  function QuoteBody(s: Str): seq<Byte> {
    if s == [] then []
    else if StartsPair(s) then
      var high: int, low: int := s[0], s[1];
      Utf8(0x10000 + (high - 0xD800) * 0x400 + (low - 0xDC00)) + QuoteBody(s[2..])
    else QuoteUnit(s[0]) + QuoteBody(s[1..])
  }

  function Quote(s: Str): seq<Byte> {
    [0x22] + QuoteBody(s) + [0x22]
  }

  /** Serialization throws on a cycle and on a bigint, leaves the value out, or gives its bytes. */
  datatype Serialized = Throws | Omitted | Bytes(bytes: seq<Byte>)

  function SerializePrimitive(v: Value): Serialized
    requires !v.Object?
  {
    match v
    case Null => Bytes([0x6E, 0x75, 0x6C, 0x6C])
    case Undefined => Omitted
    case Function => Omitted
    case Symbol => Omitted
    case BigInt => Throws
    case Boolean(b) => Bytes(if b then [0x74, 0x72, 0x75, 0x65] else [0x66, 0x61, 0x6C, 0x73, 0x65])
    case Number(finite, text) => Bytes(if finite then text else [0x6E, 0x75, 0x6C, 0x6C])
    case Text(s) => Bytes(Quote(s))
  }

  /** A boxed primitive is written as what it boxes; its properties are not looked at. */
  function Serialize(h: Heap, v: Value, stack: set<Ref>): Serialized
    requires Closed(h) && Known(h, v)
    decreases h.Keys - stack, 0
  {
    if !v.Object? then SerializePrimitive(v)
    else match h[v.r]
      case Boxed(p, _) => SerializePrimitive(p)
      case Array(items) =>
        if v.r in stack then Throws else Wrap(0x5B, SerializeItems(h, items, stack + {v.r}, false), 0x5D)
      case Record(entries) =>
        if v.r in stack then Throws else Wrap(0x7B, SerializeEntries(h, entries, stack + {v.r}, false), 0x7D)
  }

  function Wrap(open: Byte, body: Serialized, close: Byte): Serialized {
    if body.Bytes? then Bytes([open] + body.bytes + [close]) else body
  }

  function Join(head: seq<Byte>, tail: Serialized): Serialized {
    if tail.Bytes? then Bytes(head + tail.bytes) else tail
  }

  function Comma(started: bool): seq<Byte> {
    if started then [0x2C] else []
  }

  function SerializeItems(h: Heap, items: seq<Value>, stack: set<Ref>, started: bool): (body: Serialized)
    requires Closed(h) && forall v <- items :: Known(h, v)
    ensures !body.Omitted?
    decreases h.Keys - stack, |items| + 1
  {
    if items == [] then Bytes([])
    else match Serialize(h, items[0], stack)
      case Throws => Throws
      case Omitted => Join(Comma(started) + [0x6E, 0x75, 0x6C, 0x6C], SerializeItems(h, items[1..], stack, true))
      case Bytes(text) => Join(Comma(started) + text, SerializeItems(h, items[1..], stack, true))
  }

  function SerializeEntries(h: Heap, entries: seq<(Str, Value)>, stack: set<Ref>, started: bool): (body: Serialized)
    requires Closed(h) && forall e <- entries :: Known(h, e.1)
    ensures !body.Omitted?
    decreases h.Keys - stack, |entries| + 1
  {
    if entries == [] then Bytes([])
    else match Serialize(h, entries[0].1, stack)
      case Throws => Throws
      case Omitted => SerializeEntries(h, entries[1..], stack, started)
      case Bytes(text) =>
        Join(Comma(started) + Quote(entries[0].0) + [0x3A] + text, SerializeEntries(h, entries[1..], stack, true))
  }

  // ---------------------------------------------------------------------------------------------
  // How long the texts of the reference are

  lemma PrimitiveTexts(text: seq<Byte>, s: Str)
    ensures SerializePrimitive(Null).Bytes? && |SerializePrimitive(Null).bytes| == 4
    ensures SerializePrimitive(Boolean(true)).Bytes? && |SerializePrimitive(Boolean(true)).bytes| == 4
    ensures SerializePrimitive(Boolean(false)).Bytes? && |SerializePrimitive(Boolean(false)).bytes| == 5
    ensures SerializePrimitive(Number(true, text)) == Bytes(text)
    ensures SerializePrimitive(Number(false, text)) == SerializePrimitive(Null)
    ensures SerializePrimitive(Text(s)) == Bytes(Quote(s)) && SerializePrimitive(BigInt).Throws?
    ensures forall v | v in {Undefined, Function, Symbol} :: SerializePrimitive(v).Omitted?
  {
  }

  /** One unit between quotes: two bytes if it has a short escape, six if it is escaped otherwise, and else UTF-8. */
  lemma QuotedUnit(c: CodeUnit)
    ensures |Quote([])| == 2
    ensures |Quote([c])| == 2 +
      if c == 0x08 || c == 0x09 || c == 0x0A || c == 0x0C || c == 0x0D || c == 0x22 || c == 0x5C then 2
      else if c <= 0x1F || 0xD800 <= c <= 0xDFFF then 6
      else if c <= 0x7F then 1
      else if c <= 0x7FF then 2
      else 3
  {
    assert [c][1..] == [];
    assert QuoteBody([c]) == QuoteUnit(c) + QuoteBody([]);
  }

  lemma QuotedPair(high: CodeUnit, low: CodeUnit)
    requires 0xD800 <= high <= 0xDBFF && 0xDC00 <= low <= 0xDFFF
    ensures |Quote([high, low])| == 6
  {
    var pair := [high, low];
    hide QuoteBody, Quote;
    QuoteBodyStep(pair);
    QuoteLength(pair);
    assert pair[2..] == [];
  }

  /** A text is as long as its pieces are, if it is not cut between the halves of a pair. */
  lemma {:induction false} QuotedConcat(a: Str, b: Str)
    requires a != [] && b != [] ==> !(0xD800 <= a[|a| - 1] <= 0xDBFF && 0xDC00 <= b[0] <= 0xDFFF)
    ensures |Quote(a + b)| == |Quote(a)| + |Quote(b)| - 2
    decreases |a|
  {
    hide QuoteBody, Quote;
    QuoteLength(a);
    QuoteLength(b);
    QuoteLength(a + b);
    if a == [] {
      assert a + b == b;
    } else {
      var n := if StartsPair(a) then 2 else 1;
      assert a[n..] + b == (a + b)[n..] && (a + b)[0] == a[0];
      assert |a| > 1 ==> (a + b)[1] == a[1];
      assert StartsPair(a + b) <==> StartsPair(a);
      QuoteBodyStep(a + b);
      QuoteBodyStep(a);
      assert a[n..] != [] ==> a[n..][|a[n..]| - 1] == a[|a| - 1];
      QuotedConcat(a[n..], b);
      QuoteLength(a[n..]);
      QuoteLength(a[n..] + b);
    }
  }

  /** The lengths of the items, four for one that is left out. */
  function ItemsTotal(h: Heap, items: seq<Value>, stack: set<Ref>): nat
    requires Closed(h) && forall v <- items :: Known(h, v)
  {
    if items == [] then 0
    else
      var first := Serialize(h, items[0], stack);
      (if first.Bytes? then |first.bytes| else 4) + ItemsTotal(h, items[1..], stack)
  }

  lemma {:induction false} ItemsSize(h: Heap, items: seq<Value>, stack: set<Ref>, started: bool)
    requires Closed(h) && forall v <- items :: Known(h, v)
    ensures var body := SerializeItems(h, items, stack, started);
      body.Bytes? ==> |body.bytes| == ItemsTotal(h, items, stack) + |items| - if items == [] || started then 0 else 1
    decreases |items|
  {
    if items != [] {
      ItemsSize(h, items[1..], stack, true);
    }
  }

  /** An array is as long as its items, its brackets and the commas between. */
  lemma ArraySize(h: Heap, r: Ref, stack: set<Ref>)
    requires Closed(h) && r in h && h[r].Array? && r !in stack
    ensures var text, items := Serialize(h, Object(r), stack), h[r].items;
      text.Bytes? ==>
        |text.bytes| == 2 + ItemsTotal(h, items, stack + {r}) + if items == [] then 0 else |items| - 1
  {
    ItemsSize(h, h[r].items, stack + {r}, false);
  }

  /** The entries that are not left out. */
  function Written(h: Heap, entries: seq<(Str, Value)>, stack: set<Ref>): (w: seq<(Str, seq<Byte>)>)
    requires Closed(h) && forall e <- entries :: Known(h, e.1)
    ensures |w| <= |entries|
  {
    if entries == [] then []
    else
      var first, rest := Serialize(h, entries[0].1, stack), Written(h, entries[1..], stack);
      if first.Bytes? then [(entries[0].0, first.bytes)] + rest else rest
  }

  /** Each with its key, and a colon between. */
  function WrittenTotal(written: seq<(Str, seq<Byte>)>): nat {
    if written == [] then 0 else |Quote(written[0].0)| + 1 + |written[0].1| + WrittenTotal(written[1..])
  }

  lemma {:induction false} EntriesSize(h: Heap, entries: seq<(Str, Value)>, stack: set<Ref>, started: bool)
    requires Closed(h) && forall e <- entries :: Known(h, e.1)
    ensures var body, w := SerializeEntries(h, entries, stack, started), Written(h, entries, stack);
      body.Bytes? ==> |body.bytes| == WrittenTotal(w) + |w| - if w == [] || started then 0 else 1
    decreases |entries|
  {
    hide Quote;
    if entries != [] {
      EntriesSize(h, entries[1..], stack, started);
      EntriesSize(h, entries[1..], stack, true);
      var first, rest := Serialize(h, entries[0].1, stack), Written(h, entries[1..], stack);
      if first.Bytes? {
        assert ([(entries[0].0, first.bytes)] + rest)[1..] == rest;
      }
    }
  }

  /** A record is as long as the entries that are not left out, its braces and the commas between. */
  lemma RecordSize(h: Heap, r: Ref, stack: set<Ref>)
    requires Closed(h) && r in h && h[r].Record? && r !in stack
    ensures var text, w := Serialize(h, Object(r), stack), Written(h, h[r].entries, stack + {r});
      text.Bytes? ==> |text.bytes| == 2 + WrittenTotal(w) + if w == [] then 0 else |w| - 1
  {
    EntriesSize(h, h[r].entries, stack + {r}, false);
  }

  // ---------------------------------------------------------------------------------------------
  // What the calculator counts when no limit stops it

  /** Any object that is no array is counted by its properties, a boxed primitive as well. */
  function Count(h: Heap, v: Value, stack: set<Ref>, inArray: bool): Option<nat>
    requires Closed(h) && Known(h, v)
    decreases h.Keys - stack, 0
  {
    match v
    case Null => Some(4)
    case Undefined => Some(if inArray then 4 else 0)
    case Function => Some(4)
    case Symbol => Some(0)
    case BigInt => Some(0)
    case Boolean(b) => Some(if b then 4 else 5)
    case Number(finite, text) => Some(if finite then |text| else 4)
    case Text(s) => Some(|Quote(s)|)
    case Object(r) =>
      if r in stack then None
      else match h[r] {
        case Array(items) => Plus(2, CountItems(h, items, stack + {r}, false))
        case Record(entries) => Plus(2, CountEntries(h, entries, stack + {r}, false))
        case Boxed(_, entries) => Plus(2, CountEntries(h, entries, stack + {r}, false))
      }
  }

  function Plus(n: nat, m: Option<nat>): Option<nat> {
    if m.Some? then Some(n + m.value) else None
  }

  predicate Skipped(v: Value) {
    v.Undefined? || v.Function?
  }

  function CountItems(h: Heap, items: seq<Value>, stack: set<Ref>, started: bool): Option<nat>
    requires Closed(h) && forall v <- items :: Known(h, v)
    decreases h.Keys - stack, |items| + 1
  {
    if items == [] then Some(0)
    else match Count(h, items[0], stack, true)
      case None => None
      case Some(n) => Plus(|Comma(started)| + n, CountItems(h, items[1..], stack, true))
  }

  function CountEntries(h: Heap, entries: seq<(Str, Value)>, stack: set<Ref>, started: bool): Option<nat>
    requires Closed(h) && forall e <- entries :: Known(h, e.1)
    decreases h.Keys - stack, |entries| + 1
  {
    if entries == [] then Some(0)
    else if Skipped(entries[0].1) then CountEntries(h, entries[1..], stack, started)
    else match Count(h, entries[0].1, stack, false)
      case None => None
      case Some(n) =>
        Plus(|Comma(started)| + |Quote(entries[0].0)| + 1 + n, CountEntries(h, entries[1..], stack, true))
  }

  /** `bytes` answers for a length that would be `full` (none on a cycle): exact within the limit,
      and past the limit otherwise. */
  ghost predicate Decides(bytes: nat, full: Option<nat>, limit: int) {
    if full.Some? && full.value <= limit then bytes == full.value else bytes > limit
  }

  // ---------------------------------------------------------------------------------------------
  // The calculator

  lemma Rest(s: Str, index: nat)
    requires index < |s|
    ensures s[index..][1..] == s[index + 1..] && s[index..][0] == s[index] && |s[index..]| == |s| - index
    ensures index + 1 < |s| ==> s[index..][2..] == s[index + 2..] && s[index..][1] == s[index + 1]
  {
  }

  lemma QuoteLength(s: Str)
    ensures |Quote(s)| == 2 + |QuoteBody(s)| && QuoteBody([]) == []
  {
  }

  lemma QuoteBodyStep(s: Str)
    requires s != []
    ensures StartsPair(s) ==> |QuoteBody(s)| == 4 + |QuoteBody(s[2..])|
    ensures !StartsPair(s) ==> |QuoteBody(s)| == UnitLength(s[0]) + |QuoteBody(s[1..])|
  {
  }

  function UnitLength(c: CodeUnit): (n: nat)
    ensures n == |QuoteUnit(c)|
  {
    if c in {0x08, 0x09, 0x0A, 0x0C, 0x0D, 0x22, 0x5C} then 2
    else if c < 0x20 || High(c) || Low(c) then 6
    else if c < 0x80 then 1
    else if c < 0x800 then 2
    else 3
  }

  method JsonStringByteLength(value: Str, limit: int) returns (bytes: nat)
    ensures Decides(bytes, Some(|Quote(value)|), limit)
  {
    hide UnitLength;
    bytes := 2;
    var index := 0;
    hide QuoteBody, QuoteUnit, Utf8, UnicodeEscape;
    assert value[0..] == value;
    QuoteLength(value);
    while index < |value| && bytes <= limit
      invariant 0 <= index <= |value|
      invariant bytes + |QuoteBody(value[index..])| == |Quote(value)|
    {
      var code := value[index];
      QuoteBodyStep(value[index..]);
      Rest(value, index);
      if code == 0x22 || code == 0x5C || code == 0x08 || code == 0x09 || code == 0x0A {
        bytes := bytes + 2;
      } else if code == 0x0C || code == 0x0D {
        bytes := bytes + 2;
      } else if code <= 0x1F {
        bytes := bytes + 6;
      } else if 0xD800 <= code <= 0xDBFF {
        if index + 1 < |value| && 0xDC00 <= value[index + 1] <= 0xDFFF {
          bytes := bytes + 4;
          index := index + 1;
        } else {
          bytes := bytes + 6;
        }
      } else if 0xDC00 <= code <= 0xDFFF {
        bytes := bytes + 6;
      } else if code <= 0x7F {
        bytes := bytes + 1;
      } else if code <= 0x7FF {
        bytes := bytes + 2;
      } else {
        bytes := bytes + 3;
      }
      index := index + 1;
    }
  }

  datatype Measured = Circular | Length(bytes: nat)

  /** Within the limit the answer is exact; a cycle is reported unless the limit was passed first. */
  ghost predicate Answers(m: Measured, full: Option<nat>, limit: int) {
    match m
    case Circular => full.None?
    case Length(bytes) => Decides(bytes, full, limit)
  }

  method BoundedJsonByteLength(h: Heap, value: Value, limit: int, ancestors: set<Ref>, arrayEntry: bool)
    returns (m: Measured)
    requires Closed(h) && Known(h, value)
    ensures Answers(m, Count(h, value, ancestors, arrayEntry), limit)
    decreases h.Keys - ancestors, 0
  {
    match value
    case Null => m := Length(4);
    case Undefined => m := Length(if !arrayEntry then 0 else 4);
    case Function => m := Length(4);
    case Symbol => m := Length(0);
    case BigInt => m := Length(0);
    case Boolean(b) => m := Length(if b then 4 else 5);
    case Number(finite, text) => m := Length(if finite then |text| else 4);
    case Text(s) =>
      var bytes := JsonStringByteLength(s, limit);
      m := Length(bytes);
    case Object(r) =>
      if r in ancestors {
        return Circular;
      }
      match h[r]
      case Array(items) => m := MeasureItems(h, items, limit, ancestors + {r});
      case Record(entries) => m := MeasureEntries(h, entries, limit, ancestors + {r});
      case Boxed(_, entries) => m := MeasureEntries(h, entries, limit, ancestors + {r});
  }

  method MeasureItems(h: Heap, items: seq<Value>, limit: int, ancestors: set<Ref>) returns (m: Measured)
    requires Closed(h) && forall v <- items :: Known(h, v)
    ensures Answers(m, Plus(2, CountItems(h, items, ancestors, false)), limit)
    decreases h.Keys - ancestors, 1
  {
    hide Count, CountEntries, Known;
    var bytes: nat, entries := 2, 0;
    while entries < |items|
      invariant 0 <= entries <= |items|
      invariant Plus(2, CountItems(h, items, ancestors, false)) ==
                Plus(bytes, CountItems(h, items[entries..], ancestors, entries > 0))
    {
      assert items[entries..][1..] == items[entries + 1..];
      if entries > 0 {
        bytes := bytes + 1;
      }
      var entry := BoundedJsonByteLength(h, items[entries], limit - bytes, ancestors, true);
      if entry.Circular? {
        return Circular;
      }
      bytes := bytes + entry.bytes;
      entries := entries + 1;
      if bytes > limit {
        return Length(bytes);
      }
    }
    m := Length(bytes);
  }

  method MeasureEntries(h: Heap, record: seq<(Str, Value)>, limit: int, ancestors: set<Ref>) returns (m: Measured)
    requires Closed(h) && forall e <- record :: Known(h, e.1)
    ensures Answers(m, Plus(2, CountEntries(h, record, ancestors, false)), limit)
    decreases h.Keys - ancestors, 1
  {
    hide QuoteBody, Quote;
    var bytes: nat, entries, i := 2, 0, 0;
    while i < |record|
      invariant 0 <= i <= |record| && 0 <= entries
      invariant Plus(2, CountEntries(h, record, ancestors, false)) ==
                Plus(bytes, CountEntries(h, record[i..], ancestors, entries > 0))
    {
      var (key, value) := record[i];
      assert record[i..][1..] == record[i + 1..];
      i := i + 1;
      if Skipped(value) {
        continue;
      }
      if entries > 0 {
        bytes := bytes + 1;
      }
      var keyBytes := JsonStringByteLength(key, limit - bytes);
      bytes := bytes + keyBytes + 1;
      var entry := BoundedJsonByteLength(h, value, limit - bytes, ancestors, false);
      if entry.Circular? {
        return Circular;
      }
      bytes := bytes + entry.bytes;
      entries := entries + 1;
      if bytes > limit {
        return Length(bytes);
      }
    }
    m := Length(bytes);
  }

  // ---------------------------------------------------------------------------------------------
  // The count against the serializer

  /** The bytes a serialized value contributes; an array writes `null` for what is left out. */
  function Size(s: Serialized, inArray: bool): nat {
    match s
    case Throws => 0
    case Omitted => if inArray then 4 else 0
    case Bytes(bytes) => |bytes|
  }

  /** By how much symbols, boxed primitives, and a function that is the whole value put the count off. */
  function Excess(h: Heap, v: Value, stack: set<Ref>, inArray: bool): int
    requires Closed(h) && Known(h, v)
    decreases h.Keys - stack, 0
  {
    match v
    case Function => if inArray then 0 else 4
    case Symbol => if inArray then -4 else 0
    case Object(r) =>
      if r in stack then 0
      else match h[r] {
        case Array(items) => ItemsExcess(h, items, stack + {r})
        case Record(entries) => EntriesExcess(h, entries, stack + {r}, false, false)
        case Boxed(p, _) =>
          var n := Count(h, v, stack, inArray); if n.Some? then n.value - Size(SerializePrimitive(p), false) else 0
      }
    case _ => 0
  }

  function ItemsExcess(h: Heap, items: seq<Value>, stack: set<Ref>): int
    requires Closed(h) && forall v <- items :: Known(h, v)
    decreases h.Keys - stack, |items| + 1
  {
    if items == [] then 0 else Excess(h, items[0], stack, true) + ItemsExcess(h, items[1..], stack)
  }

  /** `counted` and `written`: has the calculator, has the serializer, had an entry yet? */
  function EntriesExcess(h: Heap, entries: seq<(Str, Value)>, stack: set<Ref>, counted: bool, written: bool): int
    requires Closed(h) && forall e <- entries :: Known(h, e.1)
    decreases h.Keys - stack, |entries| + 1
  {
    if entries == [] then 0
    else if Skipped(entries[0].1) then EntriesExcess(h, entries[1..], stack, counted, written)
    else if entries[0].1.Symbol? then
      |Comma(counted)| + |Quote(entries[0].0)| + 1 + EntriesExcess(h, entries[1..], stack, true, written)
    else
      |Comma(counted)| - |Comma(written)| + Excess(h, entries[0].1, stack, false)
      + EntriesExcess(h, entries[1..], stack, true, true)
  }

  predicate Boxless(h: Heap) {
    forall r <- h :: !h[r].Boxed?
  }

  /** Where serialization does not throw, the count is off by the excess; without boxed primitives there is no
      count only where it throws on a cycle. */
  lemma {:induction false} CountIsSize(h: Heap, v: Value, stack: set<Ref>, inArray: bool)
    requires Closed(h) && Known(h, v)
    ensures var n, s := Count(h, v, stack, inArray), Serialize(h, v, stack);
      && (n.None? && Boxless(h) ==> s.Throws?)
      && (n.Some? && !s.Throws? ==> n.value == Size(s, inArray) + Excess(h, v, stack, inArray))
    decreases h.Keys - stack, 0
  {
    if v.Object? && v.r !in stack {
      match h[v.r]
      case Array(items) => ItemsCountIsSize(h, items, stack + {v.r}, false);
      case Record(entries) => EntriesCountIsSize(h, entries, stack + {v.r}, false, false);
      case Boxed(_, _) =>
    }
  }

  lemma {:induction false} ItemsCountIsSize(h: Heap, items: seq<Value>, stack: set<Ref>, started: bool)
    requires Closed(h) && forall v <- items :: Known(h, v)
    ensures var n, s := CountItems(h, items, stack, started), SerializeItems(h, items, stack, started);
      && (n.None? && Boxless(h) ==> s.Throws?)
      && (n.Some? && !s.Throws? ==> n.value == |s.bytes| + ItemsExcess(h, items, stack))
    decreases h.Keys - stack, |items| + 1
  {
    if items != [] {
      CountIsSize(h, items[0], stack, true);
      ItemsCountIsSize(h, items[1..], stack, true);
    }
  }

  lemma {:induction false} EntriesCountIsSize(
    h: Heap, entries: seq<(Str, Value)>, stack: set<Ref>, counted: bool, written: bool)
    requires Closed(h) && forall e <- entries :: Known(h, e.1)
    ensures var n, s := CountEntries(h, entries, stack, counted), SerializeEntries(h, entries, stack, written);
      && (n.None? && Boxless(h) ==> s.Throws?)
      && (n.Some? && !s.Throws? ==> n.value == |s.bytes| + EntriesExcess(h, entries, stack, counted, written))
    decreases h.Keys - stack, |entries| + 1
  {
    hide Quote, QuoteBody, Without, Comma;
    if entries != [] {
      var v := entries[0].1;
      CountIsSize(h, v, stack, false);
      EntriesCountIsSize(h, entries[1..], stack, counted, written);
      EntriesCountIsSize(h, entries[1..], stack, true, written);
      EntriesCountIsSize(h, entries[1..], stack, true, true);
    }
  }

  // ---------------------------------------------------------------------------------------------
  // When the calculator is exact

  /** What the calculator finds directly in an object. */
  predicate Holds(n: Node, v: Value) {
    if n.Array? then v in n.items else exists i :: 0 <= i < |n.entries| && n.entries[i].1 == v
  }

  /** What the serializer finds directly in an object. */
  predicate Has(n: Node, v: Value) {
    if n.Boxed? then v == n.primitive else Holds(n, v)
  }

  predicate Child(h: Heap, r: Ref, c: Ref) {
    r in h && Holds(h[r], Object(c))
  }

  ghost predicate Path(h: Heap, path: seq<Ref>) {
    && path != []
    && (forall i | 0 <= i < |path| :: path[i] in h)
    && (forall i | 0 <= i < |path| - 1 :: Child(h, path[i], path[i + 1]))
  }

  /** `r` is the value itself or is held, through any number of others, by it. */
  ghost predicate Reachable(h: Heap, v: Value, r: Ref) {
    v.Object? && exists path :: Path(h, path) && path[0] == v.r && path[|path| - 1] == r
  }

  lemma ReachesItself(h: Heap, r: Ref)
    requires r in h
    ensures Reachable(h, Object(r), r)
  {
    assert Path(h, [r]);
  }

  lemma ReachesOn(h: Heap, r: Ref, c: Ref, s: Ref)
    requires r in h && Child(h, r, c) && Reachable(h, Object(c), s)
    ensures Reachable(h, Object(r), s)
  {
    var path :| Path(h, path) && path[0] == c && path[|path| - 1] == s;
    var longer := [r] + path;
    assert forall i | 0 <= i < |longer| - 1 :: Child(h, longer[i], longer[i + 1]);
    assert Path(h, longer);
  }

  /** What is reached is the start, or is reached from one of its children. */
  lemma ReachedThroughChild(h: Heap, r: Ref, s: Ref) returns (c: Ref)
    requires Reachable(h, Object(r), s) && s != r
    ensures Child(h, r, c) && Reachable(h, Object(c), s)
  {
    var path :| Path(h, path) && path[0] == r && path[|path| - 1] == s;
    c := path[1];
    assert Child(h, path[0], path[1]);
    var rest := path[1..];
    assert forall i | 0 <= i < |rest| :: rest[i] == path[i + 1];
    assert Path(h, rest);
  }

  /** No object of the value has the primitive `p`. */
  ghost predicate Without(h: Heap, v: Value, p: Value) {
    forall r | r in h && Reachable(h, v, r) :: !Has(h[r], p)
  }

  /** The boxed primitive is as long as the object that the calculator takes it for. */
  ghost predicate Balanced(h: Heap, r: Ref)
    requires Closed(h) && r in h
  {
    h[r].Boxed? ==> Count(h, Object(r), {}, false) == Some(Size(SerializePrimitive(h[r].primitive), false))
  }

  ghost predicate AllBalanced(h: Heap, v: Value)
    requires Closed(h)
  {
    forall r | r in h && Reachable(h, v, r) :: Balanced(h, r)
  }

  lemma ChildWithout(h: Heap, r: Ref, c: Ref, p: Value)
    requires Without(h, Object(r), p) && Child(h, r, c)
    ensures Without(h, Object(c), p)
  {
    forall s | s in h && Reachable(h, Object(c), s) ensures !Has(h[s], p) {
      ReachesOn(h, r, c, s);
    }
  }

  /** What is in a node is balanced if the node is, with all that is in it. */
  lemma HeldBalanced(h: Heap, r: Ref)
    requires Closed(h) && r in h && AllBalanced(h, Object(r))
    ensures Balanced(h, r) && forall v | Holds(h[r], v) :: AllBalanced(h, v)
  {
    ReachesItself(h, r);
    forall v | Holds(h[r], v) ensures AllBalanced(h, v) {
      forall s | s in h && Reachable(h, v, s) ensures Balanced(h, s) {
        ReachesOn(h, r, v.r, s);
      }
    }
  }

  /** What a node holds is without what the node is without. */
  lemma HeldWithout(h: Heap, r: Ref, p: Value)
    requires r in h && Without(h, Object(r), p)
    ensures !Has(h[r], p) && forall v | Holds(h[r], v) :: Without(h, v, p)
  {
    ReachesItself(h, r);
    forall v | Holds(h[r], v) ensures Without(h, v, p) {
      if v.Object? {
        ChildWithout(h, r, v.r, p);
      }
    }
  }

  lemma EntriesAreHeld(entries: seq<(Str, Value)>)
    ensures forall e <- entries :: Holds(Record(entries), e.1)
  {
  }

  lemma {:induction false} NoThrow(h: Heap, v: Value, stack: set<Ref>, inArray: bool)
    requires Closed(h) && Known(h, v) && !v.BigInt? && Without(h, v, BigInt) && Count(h, v, stack, inArray).Some?
    ensures !Serialize(h, v, stack).Throws?
    decreases h.Keys - stack, 0
  {
    if v.Object? {
      HeldWithout(h, v.r, BigInt);
      match h[v.r]
      case Array(items) => NoItemThrows(h, items, stack + {v.r}, false);
      case Record(entries) =>
        EntriesAreHeld(entries);
        NoEntryThrows(h, entries, stack + {v.r}, false, false);
      case Boxed(_, _) =>
    }
  }

  lemma {:induction false} NoItemThrows(h: Heap, items: seq<Value>, stack: set<Ref>, started: bool)
    requires Closed(h) && forall v <- items :: Known(h, v) && !v.BigInt? && Without(h, v, BigInt)
    requires CountItems(h, items, stack, started).Some?
    ensures !SerializeItems(h, items, stack, started).Throws?
    decreases h.Keys - stack, |items| + 1
  {
    if items != [] {
      NoThrow(h, items[0], stack, true);
      NoItemThrows(h, items[1..], stack, true);
    }
  }

  lemma {:induction false} NoEntryThrows(
    h: Heap, entries: seq<(Str, Value)>, stack: set<Ref>, counted: bool, written: bool)
    requires Closed(h) && forall e <- entries :: Known(h, e.1) && !e.1.BigInt? && Without(h, e.1, BigInt)
    requires CountEntries(h, entries, stack, counted).Some?
    ensures !SerializeEntries(h, entries, stack, written).Throws?
    decreases h.Keys - stack, |entries| + 1
  {
    hide Quote, QuoteBody, Reachable;
    if entries != [] {
      if Skipped(entries[0].1) {
        NoEntryThrows(h, entries[1..], stack, counted, written);
      } else {
        NoThrow(h, entries[0].1, stack, false);
        NoEntryThrows(h, entries[1..], stack, true, !entries[0].1.Symbol? || written);
      }
    }
  }

  lemma {:induction false} ItemThrows(h: Heap, items: seq<Value>, stack: set<Ref>, started: bool, v: Value)
    requires Closed(h) && (forall w <- items :: Known(h, w)) && v in items && Serialize(h, v, stack).Throws?
    ensures SerializeItems(h, items, stack, started).Throws?
    decreases |items|
  {
    if v != items[0] {
      ItemThrows(h, items[1..], stack, true, v);
    }
  }

  lemma {:induction false} EntryThrows(h: Heap, entries: seq<(Str, Value)>, stack: set<Ref>, started: bool, i: nat)
    requires Closed(h) && (forall e <- entries :: Known(h, e.1)) && i < |entries|
    requires Serialize(h, entries[i].1, stack).Throws?
    ensures SerializeEntries(h, entries, stack, started).Throws?
    decreases |entries|
  {
    if i > 0 {
      EntryThrows(h, entries[1..], stack, started || Serialize(h, entries[0].1, stack).Bytes?, i - 1);
    }
  }

  lemma HeldThrows(h: Heap, r: Ref, stack: set<Ref>, v: Value)
    requires Closed(h) && r in h && Known(h, v) && Holds(h[r], v) && r !in stack && !h[r].Boxed?
    requires Serialize(h, v, stack + {r}).Throws?
    ensures Serialize(h, Object(r), stack).Throws?
  {
    match h[r]
    case Array(items) => ItemThrows(h, items, stack + {r}, false, v);
    case Record(entries) =>
      var i :| 0 <= i < |entries| && entries[i].1 == v;
      EntryThrows(h, entries, stack + {r}, false, i);
  }

  lemma {:induction false} CountedItem(h: Heap, items: seq<Value>, stack: set<Ref>, started: bool, v: Value)
    requires Closed(h) && (forall v <- items :: Known(h, v)) && v in items
    requires CountItems(h, items, stack, started).Some?
    ensures Count(h, v, stack, true).Some?
    decreases |items|
  {
    if v != items[0] {
      CountedItem(h, items[1..], stack, true, v);
    }
  }

  lemma {:induction false} CountedEntry(h: Heap, entries: seq<(Str, Value)>, stack: set<Ref>, started: bool, i: nat)
    requires Closed(h) && (forall e <- entries :: Known(h, e.1)) && i < |entries| && !Skipped(entries[i].1)
    requires CountEntries(h, entries, stack, started).Some?
    ensures Count(h, entries[i].1, stack, false).Some?
    decreases |entries|
  {
    if i > 0 {
      CountedEntry(h, entries[1..], stack, if Skipped(entries[0].1) then started else true, i - 1);
    }
  }

  lemma CountedChild(h: Heap, r: Ref, stack: set<Ref>, inArray: bool, c: Ref)
    requires Closed(h) && Child(h, r, c) && Count(h, Object(r), stack, inArray).Some?
    ensures c in h && Count(h, Object(c), stack + {r}, false).Some?
  {
    match h[r]
    case Array(items) => CountedItem(h, items, stack + {r}, false, Object(c));
    case Record(entries) =>
      var i :| 0 <= i < |entries| && entries[i].1 == Object(c);
      CountedEntry(h, entries, stack + {r}, false, i);
    case Boxed(_, entries) =>
      var i :| 0 <= i < |entries| && entries[i].1 == Object(c);
      CountedEntry(h, entries, stack + {r}, false, i);
  }

  lemma {:induction false} BigIntThrows(h: Heap, r: Ref, stack: set<Ref>, inArray: bool, s: Ref)
    requires Closed(h) && r in h && Count(h, Object(r), stack, inArray).Some?
    requires s in h && Reachable(h, Object(r), s) && Has(h[s], BigInt) && Boxless(h)
    ensures Serialize(h, Object(r), stack).Throws?
    decreases h.Keys - stack
  {
    if s == r {
      HeldThrows(h, r, stack, BigInt);
    } else {
      var c := ReachedThroughChild(h, r, s);
      CountedChild(h, r, stack, inArray, c);
      BigIntThrows(h, c, stack + {r}, false, s);
      HeldThrows(h, r, stack, Object(c));
    }
  }

  lemma ThrowsBoxless(h: Heap, v: Value, stack: set<Ref>, inArray: bool)
    requires Closed(h) && Known(h, v) && Boxless(h)
    ensures Serialize(h, v, stack).Throws? <==>
      Count(h, v, stack, inArray).None? || v.BigInt? || !Without(h, v, BigInt)
  {
    CountIsSize(h, v, stack, inArray);
    if Count(h, v, stack, inArray).Some? {
      if !v.BigInt? && Without(h, v, BigInt) {
        NoThrow(h, v, stack, inArray);
      } else if !v.BigInt? {
        var s :| s in h && Reachable(h, v, s) && Has(h[s], BigInt);
        BigIntThrows(h, v.r, stack, inArray, s);
      }
    }
  }

  function Unbox(h: Heap, v: Value): Value {
    if v.Object? && v.r in h && h[v.r].Boxed? then h[v.r].primitive else v
  }

  function UnboxItems(h: Heap, items: seq<Value>): seq<Value> {
    seq(|items|, i requires 0 <= i < |items| => Unbox(h, items[i]))
  }

  function UnboxEntries(h: Heap, entries: seq<(Str, Value)>): seq<(Str, Value)> {
    seq(|entries|, i requires 0 <= i < |entries| => (entries[i].0, Unbox(h, entries[i].1)))
  }

  /** The heap with each boxed primitive replaced by what it boxes. */
  function Unboxed(h: Heap): Heap {
    map r | r in h && !h[r].Boxed? ::
      if h[r].Array? then Array(UnboxItems(h, h[r].items)) else Record(UnboxEntries(h, h[r].entries))
  }

  lemma UnboxedIsClosed(h: Heap)
    requires Closed(h)
    ensures Closed(Unboxed(h)) && Boxless(Unboxed(h)) && forall v | Known(h, v) :: Known(Unboxed(h), Unbox(h, v))
  {
    var u := Unboxed(h);
    forall v | Known(h, v) ensures Known(u, Unbox(h, v)) {
    }
    forall r | r in u && u[r].Array? ensures forall v <- u[r].items :: Known(u, v) {
      forall i | 0 <= i < |u[r].items| ensures Known(u, u[r].items[i]) {
        assert Known(h, h[r].items[i]);
      }
    }
    forall r | r in u && u[r].Record? ensures forall e <- u[r].entries :: Known(u, e.1) {
      forall i | 0 <= i < |u[r].entries| ensures Known(u, u[r].entries[i].1) {
        assert h[r].entries[i] in h[r].entries;
      }
    }
  }

  /** The serializer does not tell a boxed primitive from what it boxes. */
  lemma {:induction false} SerializesUnboxed(h: Heap, v: Value, stack: set<Ref>)
    requires Closed(h) && Known(h, v) && Closed(Unboxed(h)) && Known(Unboxed(h), Unbox(h, v))
    ensures Serialize(h, v, stack) == Serialize(Unboxed(h), Unbox(h, v), stack)
    decreases h.Keys - stack, 0
  {
    if v.Object? && v.r !in stack && !h[v.r].Boxed? {
      match h[v.r]
      case Array(items) => ItemsUnboxed(h, items, stack + {v.r}, false);
      case Record(entries) => EntriesUnboxed(h, entries, stack + {v.r}, false);
    }
  }

  lemma {:induction false} ItemsUnboxed(h: Heap, items: seq<Value>, stack: set<Ref>, started: bool)
    requires Closed(h) && (forall v <- items :: Known(h, v)) && Closed(Unboxed(h))
    requires forall v <- UnboxItems(h, items) :: Known(Unboxed(h), v)
    ensures SerializeItems(h, items, stack, started) ==
            SerializeItems(Unboxed(h), UnboxItems(h, items), stack, started)
    decreases h.Keys - stack, |items| + 1
  {
    if items != [] {
      var unboxed := UnboxItems(h, items);
      assert unboxed[0] == Unbox(h, items[0]) && unboxed[1..] == UnboxItems(h, items[1..]);
      SerializesUnboxed(h, items[0], stack);
      ItemsUnboxed(h, items[1..], stack, true);
    }
  }

  lemma {:induction false} EntriesUnboxed(h: Heap, entries: seq<(Str, Value)>, stack: set<Ref>, started: bool)
    requires Closed(h) && (forall e <- entries :: Known(h, e.1)) && Closed(Unboxed(h))
    requires forall e <- UnboxEntries(h, entries) :: Known(Unboxed(h), e.1)
    ensures SerializeEntries(h, entries, stack, started) ==
            SerializeEntries(Unboxed(h), UnboxEntries(h, entries), stack, started)
    decreases h.Keys - stack, |entries| + 1
  {
    if entries != [] {
      var unboxed := UnboxEntries(h, entries);
      assert unboxed[0] == (entries[0].0, Unbox(h, entries[0].1)) && unboxed[1..] == UnboxEntries(h, entries[1..]);
      SerializesUnboxed(h, entries[0].1, stack);
      EntriesUnboxed(h, entries[1..], stack, started);
      EntriesUnboxed(h, entries[1..], stack, true);
    }
  }

  /** Serialization throws exactly where the calculator would meet a cycle, and where there is a bigint, if boxed
      primitives were replaced by what they box. */
  lemma ThrowsIff(h: Heap, v: Value, stack: set<Ref>, inArray: bool)
    requires Closed(h) && Known(h, v)
    ensures var u, w := Unboxed(h), Unbox(h, v);
      && Closed(u) && Known(u, w)
      && (Serialize(h, v, stack).Throws? <==>
            Count(u, w, stack, inArray).None? || w.BigInt? || !Without(u, w, BigInt))
  {
    UnboxedIsClosed(h);
    SerializesUnboxed(h, v, stack);
    ThrowsBoxless(Unboxed(h), Unbox(h, v), stack, inArray);
  }

  /** Values without symbols and with balanced boxes, functions in place of the whole value excepted, have no
      excess. */
  lemma {:induction false} NoExcess(h: Heap, v: Value, stack: set<Ref>, inArray: bool)
    requires Closed(h) && Known(h, v) && Without(h, v, Symbol) && AllBalanced(h, v)
    requires (v.Symbol? ==> !inArray) && (v.Function? ==> inArray)
    ensures Excess(h, v, stack, inArray) == 0
    decreases h.Keys - stack, 0
  {
    if v.Object? && v.r !in stack {
      HeldWithout(h, v.r, Symbol);
      HeldBalanced(h, v.r);
      match h[v.r]
      case Array(items) => NoItemsExcess(h, items, stack + {v.r});
      case Record(entries) =>
        EntriesAreHeld(entries);
        NoEntriesExcess(h, entries, stack + {v.r}, false);
      case Boxed(p, entries) =>
        if Count(h, v, stack, inArray).Some? {
          CountWithLess(h, v, stack, {}, inArray);
        }
    }
  }

  lemma {:induction false} NoItemsExcess(h: Heap, items: seq<Value>, stack: set<Ref>)
    requires Closed(h) && forall v <- items :: Known(h, v) && !v.Symbol? && Without(h, v, Symbol) && AllBalanced(h, v)
    ensures ItemsExcess(h, items, stack) == 0
    decreases h.Keys - stack, |items| + 1
  {
    if items != [] {
      NoExcess(h, items[0], stack, true);
      NoItemsExcess(h, items[1..], stack);
    }
  }

  lemma {:induction false} NoEntriesExcess(h: Heap, entries: seq<(Str, Value)>, stack: set<Ref>, started: bool)
    requires Closed(h)
    requires forall e <- entries :: Known(h, e.1) && !e.1.Symbol? && Without(h, e.1, Symbol) && AllBalanced(h, e.1)
    ensures EntriesExcess(h, entries, stack, started, started) == 0
    decreases h.Keys - stack, |entries| + 1
  {
    if entries != [] {
      if !Skipped(entries[0].1) {
        NoExcess(h, entries[0].1, stack, false);
      }
      NoEntriesExcess(h, entries[1..], stack, started);
      NoEntriesExcess(h, entries[1..], stack, true);
    }
  }

  /** Where only symbols can put the count off, they do: below in an array, above in a record. */
  lemma {:induction false} ItemSymbols(h: Heap, items: seq<Value>, stack: set<Ref>)
    requires Closed(h) && (forall v <- items :: Known(h, v))
    requires forall v <- items | !v.Symbol? :: Without(h, v, Symbol) && AllBalanced(h, v)
    ensures ItemsExcess(h, items, stack) <= if Symbol in items then -4 else 0
    decreases |items|
  {
    if items != [] {
      if !items[0].Symbol? {
        NoExcess(h, items[0], stack, true);
      }
      ItemSymbols(h, items[1..], stack);
    }
  }

  lemma {:induction false} EntrySymbols(
    h: Heap, entries: seq<(Str, Value)>, stack: set<Ref>, counted: bool, written: bool)
    requires Closed(h) && (forall e <- entries :: Known(h, e.1)) && (written ==> counted)
    requires forall e <- entries | !e.1.Symbol? :: Without(h, e.1, Symbol) && AllBalanced(h, e.1)
    ensures EntriesExcess(h, entries, stack, counted, written) >= if Holds(Record(entries), Symbol) then 3 else 0
    decreases |entries|
  {
    if entries != [] {
      var v, rest := entries[0].1, entries[1..];
      if !v.Symbol? && !Skipped(v) {
        NoExcess(h, v, stack, false);
      }
      EntrySymbols(h, rest, stack, counted, written);
      EntrySymbols(h, rest, stack, true, written);
      EntrySymbols(h, rest, stack, true, true);
      if Holds(Record(entries), Symbol) && !v.Symbol? {
        var i :| 0 <= i < |entries| && entries[i].1 == Symbol;
        assert rest[i - 1].1 == Symbol;
      }
    }
  }

  lemma SymbolsShow(h: Heap, r: Ref, stack: set<Ref>, inArray: bool)
    requires Closed(h) && r in h && r !in stack && !h[r].Boxed? && Holds(h[r], Symbol)
    requires forall c | Child(h, r, c) :: Without(h, Object(c), Symbol) && AllBalanced(h, Object(c))
    ensures Excess(h, Object(r), stack, inArray) != 0
  {
    forall v | Holds(h[r], v) && !v.Symbol? ensures Without(h, v, Symbol) && AllBalanced(h, v) {
      if v.Object? {
        assert Child(h, r, v.r);
      }
    }
    match h[r]
    case Array(items) => ItemSymbols(h, items, stack + {r});
    case Record(entries) =>
      EntriesAreHeld(entries);
      EntrySymbols(h, entries, stack + {r}, false, false);
  }

  /** The right answer: the serialized length, decided within the limit; or a refusal of what cannot be
      serialized. */
  ghost predicate Correct(m: Measured, s: Serialized, limit: int) {
    if s.Throws? then m.Circular? || m.bytes > limit
    else m.Length? && Decides(m.bytes, Some(Size(s, false)), limit)
  }

  /** The calculator is right about the value under every limit. */
  ghost predicate Exact(h: Heap, v: Value)
    requires Closed(h) && Known(h, v)
  {
    forall limit: int, m: Measured ::
      Answers(m, Count(h, v, {}, false), limit) ==> Correct(m, Serialize(h, v, {}), limit)
  }

  lemma ExactIffNoExcess(h: Heap, v: Value)
    requires Closed(h) && Known(h, v)
    ensures Exact(h, v) <==>
      if Count(h, v, {}, false).None? then Serialize(h, v, {}).Throws?
      else !Serialize(h, v, {}).Throws? && Excess(h, v, {}, false) == 0
  {
    CountIsSize(h, v, {}, false);
    var count, text := Count(h, v, {}, false), Serialize(h, v, {});
    if count.None? {
      assert Answers(Circular, count, 0);
    } else {
      var n := count.value;
      if text.Throws? {
        assert Answers(Length(n), count, n);
      } else if n != Size(text, false) {
        var limit := if n < Size(text, false) then n else Size(text, false);
        assert Answers(Length(if n <= limit then n else limit + 1), count, limit);
      }
    }
  }

  /** What is counted below a stack is counted below a smaller one. */
  lemma {:induction false} CountWithLess(h: Heap, v: Value, stack: set<Ref>, less: set<Ref>, inArray: bool)
    requires Closed(h) && Known(h, v) && less <= stack && Count(h, v, stack, inArray).Some?
    ensures Count(h, v, less, inArray) == Count(h, v, stack, inArray)
    decreases h.Keys - stack, 0
  {
    if v.Object? {
      match h[v.r]
      case Array(items) => CountItemsWithLess(h, items, stack + {v.r}, less + {v.r}, false);
      case Record(entries) => CountEntriesWithLess(h, entries, stack + {v.r}, less + {v.r}, false);
      case Boxed(_, entries) => CountEntriesWithLess(h, entries, stack + {v.r}, less + {v.r}, false);
    }
  }

  lemma {:induction false} CountItemsWithLess(
    h: Heap, items: seq<Value>, stack: set<Ref>, less: set<Ref>, started: bool)
    requires Closed(h) && (forall v <- items :: Known(h, v)) && less <= stack
    requires CountItems(h, items, stack, started).Some?
    ensures CountItems(h, items, less, started) == CountItems(h, items, stack, started)
    decreases h.Keys - stack, |items| + 1
  {
    if items != [] {
      CountWithLess(h, items[0], stack, less, true);
      CountItemsWithLess(h, items[1..], stack, less, true);
    }
  }

  lemma {:induction false} CountEntriesWithLess(
    h: Heap, entries: seq<(Str, Value)>, stack: set<Ref>, less: set<Ref>, started: bool)
    requires Closed(h) && (forall e <- entries :: Known(h, e.1)) && less <= stack
    requires CountEntries(h, entries, stack, started).Some?
    ensures CountEntries(h, entries, less, started) == CountEntries(h, entries, stack, started)
    decreases h.Keys - stack, |entries| + 1
  {
    if entries != [] {
      if Skipped(entries[0].1) {
        CountEntriesWithLess(h, entries[1..], stack, less, started);
      } else {
        CountWithLess(h, entries[0].1, stack, less, false);
        CountEntriesWithLess(h, entries[1..], stack, less, true);
      }
    }
  }

  /** Exact on all that a counted object holds: then there is no symbol and no bigint in it, and its boxes are
      balanced. */
  lemma {:induction false} ExactIsPlain(h: Heap, r: Ref, stack: set<Ref>, inArray: bool)
    requires Closed(h) && r in h && Count(h, Object(r), stack, inArray).Some?
    requires forall s | s in h && Reachable(h, Object(r), s) :: Exact(h, Object(s))
    ensures Without(h, Object(r), Symbol) && Without(h, Object(r), BigInt) && AllBalanced(h, Object(r))
    decreases h.Keys - stack
  {
    forall c | Child(h, r, c)
      ensures Without(h, Object(c), Symbol) && Without(h, Object(c), BigInt) && AllBalanced(h, Object(c))
    {
      CountedChild(h, r, stack, inArray, c);
      forall s | s in h && Reachable(h, Object(c), s) ensures Exact(h, Object(s)) {
        ReachesOn(h, r, c, s);
      }
      ExactIsPlain(h, c, stack + {r}, false);
    }
    CountWithLess(h, Object(r), stack, {}, inArray);
    ReachesItself(h, r);
    ExactNode(h, r);
    forall s | s in h && Reachable(h, Object(r), s)
      ensures !Has(h[s], Symbol) && !Has(h[s], BigInt) && Balanced(h, s)
    {
      if s != r {
        var c := ReachedThroughChild(h, r, s);
      }
    }
  }

  lemma ExactNode(h: Heap, r: Ref)
    requires Closed(h) && r in h && Count(h, Object(r), {}, false).Some? && Exact(h, Object(r))
    requires forall c | Child(h, r, c) :: Without(h, Object(c), Symbol) && AllBalanced(h, Object(c))
    ensures !Has(h[r], Symbol) && !Has(h[r], BigInt) && Balanced(h, r)
  {
    ExactIffNoExcess(h, Object(r));
    if !h[r].Boxed? {
      if Holds(h[r], BigInt) {
        HeldThrows(h, r, {}, BigInt);
      }
      if Holds(h[r], Symbol) {
        SymbolsShow(h, r, {}, false);
      }
    }
  }

  /** No symbol and no bigint is found anywhere in the value, no boxed primitive that is not as long as an object
      with its properties, and it is not itself a function or a bigint. */
  ghost predicate PlainThroughout(h: Heap, v: Value)
    requires Closed(h)
  {
    !v.Function? && !v.BigInt? && Without(h, v, Symbol) && Without(h, v, BigInt) && AllBalanced(h, v)
  }

  /** The calculator is right about a value without cycles, and about each object found in it, exactly when
      there is no symbol, no bigint and no unbalanced box in it and it is not a function or a bigint. */
  lemma ExactIffPlain(h: Heap, v: Value)
    requires Closed(h) && Known(h, v) && Count(h, v, {}, false).Some?
    ensures Exact(h, v) && (forall r | r in h && Reachable(h, v, r) :: Exact(h, Object(r)))
      <==> PlainThroughout(h, v)
  {
    ExactIffNoExcess(h, v);
    if PlainThroughout(h, v) {
      PlainIsExact(h, v);
      forall r | r in h && Reachable(h, v, r) ensures Exact(h, Object(r)) {
        forall s | s in h && Reachable(h, Object(r), s) ensures Reachable(h, v, s) {
          ReachesFurther(h, v.r, r, s);
        }
        PlainIsExact(h, Object(r));
      }
    } else if v.Object? && forall r | r in h && Reachable(h, v, r) :: Exact(h, Object(r)) {
      ExactIsPlain(h, v.r, {}, false);
    }
  }

  lemma PlainIsExact(h: Heap, v: Value)
    requires Closed(h) && Known(h, v) && PlainThroughout(h, v)
    ensures Exact(h, v)
  {
    ExactIffNoExcess(h, v);
    NoExcess(h, v, {}, false);
    if Count(h, v, {}, false).Some? {
      NoThrow(h, v, {}, false);
    } else {
      CycleThrows(h, v, {}, false);
    }
  }

  lemma ReachesFurther(h: Heap, r: Ref, s: Ref, t: Ref)
    requires Reachable(h, Object(r), s) && Reachable(h, Object(s), t)
    ensures Reachable(h, Object(r), t)
  {
    var p1 :| Path(h, p1) && p1[0] == r && p1[|p1| - 1] == s;
    var p2 :| Path(h, p2) && p2[0] == s && p2[|p2| - 1] == t;
    var path := p1 + p2[1..];
    assert forall i | 0 <= i < |path| :: path[i] == if i < |p1| then p1[i] else p2[i - |p1| + 1];
    assert Path(h, path);
  }

  /** Where what is counted leads, nothing leads back. */
  lemma NoWayBack(h: Heap, r: Ref, s: Ref, inArray: bool)
    requires Closed(h) && r in h && Count(h, Object(r), {}, inArray).Some?
    requires Reachable(h, Object(r), s) && s != r
    ensures !Reachable(h, Object(s), r)
  {
    if Reachable(h, Object(s), r) {
      var p1 :| Path(h, p1) && p1[0] == r && p1[|p1| - 1] == s;
      var p2 :| Path(h, p2) && p2[0] == s && p2[|p2| - 1] == r;
      var path := p1 + p2[1..];
      assert forall i | 0 <= i < |path| :: path[i] == if i < |p1| then p1[i] else p2[i - |p1| + 1];
      assert Path(h, path) && path[0] == r && path[|path| - 1] == r && |path| > 1;
      CountedIsAcyclic(h, path, {}, inArray);
    }
  }

  ghost predicate Avoids(h: Heap, v: Value, refs: set<Ref>) {
    forall r | Reachable(h, v, r) :: r !in refs
  }

  lemma HeldAvoids(h: Heap, r: Ref, refs: set<Ref>)
    requires Closed(h) && r in h && Avoids(h, Object(r), refs)
    ensures r !in refs && forall v | Holds(h[r], v) :: Avoids(h, v, refs)
  {
    ReachesItself(h, r);
    forall v, s | Holds(h[r], v) && Reachable(h, v, s) ensures s !in refs {
      ReachesOn(h, r, v.r, s);
    }
  }

  /** What is counted below a stack is counted below a larger one that it does not meet. */
  lemma {:induction false} CountWithMore(h: Heap, v: Value, stack: set<Ref>, more: set<Ref>, inArray: bool)
    requires Closed(h) && Known(h, v) && Avoids(h, v, more) && Count(h, v, stack, inArray).Some?
    ensures Count(h, v, stack + more, inArray).Some?
    decreases h.Keys - stack, 0
  {
    if v.Object? {
      HeldAvoids(h, v.r, more);
      assert stack + {v.r} + more == stack + more + {v.r};
      match h[v.r]
      case Array(items) => CountItemsWithMore(h, items, stack + {v.r}, more, false);
      case Record(entries) =>
        EntriesAreHeld(entries);
        CountEntriesWithMore(h, entries, stack + {v.r}, more, false);
      case Boxed(p, entries) =>
        EntriesAreHeld(entries);
        assert forall e <- entries :: Holds(h[v.r], e.1);
        CountEntriesWithMore(h, entries, stack + {v.r}, more, false);
    }
  }

  lemma {:induction false} CountItemsWithMore(
    h: Heap, items: seq<Value>, stack: set<Ref>, more: set<Ref>, started: bool)
    requires Closed(h) && (forall v <- items :: Known(h, v) && Avoids(h, v, more))
    requires CountItems(h, items, stack, started).Some?
    ensures CountItems(h, items, stack + more, started).Some?
    decreases h.Keys - stack, |items| + 1
  {
    if items != [] {
      CountWithMore(h, items[0], stack, more, true);
      CountItemsWithMore(h, items[1..], stack, more, true);
    }
  }

  lemma {:induction false} CountEntriesWithMore(
    h: Heap, entries: seq<(Str, Value)>, stack: set<Ref>, more: set<Ref>, started: bool)
    requires Closed(h) && (forall e <- entries :: Known(h, e.1) && Avoids(h, e.1, more))
    requires CountEntries(h, entries, stack, started).Some?
    ensures CountEntries(h, entries, stack + more, started).Some?
    decreases h.Keys - stack, |entries| + 1
  {
    if entries != [] {
      if Skipped(entries[0].1) {
        CountEntriesWithMore(h, entries[1..], stack, more, started);
      } else {
        CountWithMore(h, entries[0].1, stack, more, false);
        CountEntriesWithMore(h, entries[1..], stack, more, true);
      }
    }
  }

  lemma {:induction false} UncountedItem(h: Heap, items: seq<Value>, stack: set<Ref>, started: bool) returns (v: Value)
    requires Closed(h) && (forall v <- items :: Known(h, v)) && CountItems(h, items, stack, started).None?
    ensures v in items && Count(h, v, stack, true).None?
    decreases |items|
  {
    v := items[0];
    if Count(h, v, stack, true).Some? {
      v := UncountedItem(h, items[1..], stack, true);
    }
  }

  lemma {:induction false} UncountedEntry(h: Heap, entries: seq<(Str, Value)>, stack: set<Ref>, started: bool)
    returns (i: nat)
    requires Closed(h) && (forall e <- entries :: Known(h, e.1)) && CountEntries(h, entries, stack, started).None?
    ensures i < |entries| && Count(h, entries[i].1, stack, false).None?
    decreases |entries|
  {
    var v := entries[0].1;
    if Skipped(v) || Count(h, v, stack, false).Some? {
      i := UncountedEntry(h, entries[1..], stack, !Skipped(v) || started);
      i := i + 1;
    } else {
      i := 0;
    }
  }

  /** A cycle that the calculator meets in a value whose boxes are balanced, and so hold none, is one that the
      serializer meets. */
  lemma {:induction false} CycleThrows(h: Heap, v: Value, stack: set<Ref>, inArray: bool)
    requires Closed(h) && Known(h, v) && AllBalanced(h, v) && Count(h, v, stack, inArray).None?
    requires forall s <- stack :: s in h && !h[s].Boxed? && Reachable(h, Object(s), v.r)
    ensures Serialize(h, v, stack).Throws?
    decreases h.Keys - stack
  {
    if v.r !in stack {
      HeldBalanced(h, v.r);
      match h[v.r]
      case Array(items) =>
        var w := UncountedItem(h, items, stack + {v.r}, false);
        CycleBelow(h, v.r, stack, w);
        CycleThrows(h, w, stack + {v.r}, true);
        ItemThrows(h, items, stack + {v.r}, false, w);
      case Record(entries) =>
        var i := UncountedEntry(h, entries, stack + {v.r}, false);
        CycleBelow(h, v.r, stack, entries[i].1);
        CycleThrows(h, entries[i].1, stack + {v.r}, false);
        EntryThrows(h, entries, stack + {v.r}, false, i);
      case Boxed(_, _) =>
        BoxHasNone(h, v.r, stack, inArray);
    }
  }

  lemma CycleBelow(h: Heap, r: Ref, stack: set<Ref>, v: Value)
    requires Closed(h) && r in h && !h[r].Boxed? && Holds(h[r], v) && v.Object? && Known(h, v)
    requires forall s <- stack :: s in h && Reachable(h, Object(s), r)
    ensures forall s <- stack + {r} :: Reachable(h, Object(s), v.r)
  {
    ReachesItself(h, v.r);
    ReachesOn(h, r, v.r, v.r);
    forall s | s in stack ensures Reachable(h, Object(s), v.r) {
      ReachesFurther(h, s, r, v.r);
    }
  }

  lemma BoxHasNone(h: Heap, r: Ref, stack: set<Ref>, inArray: bool)
    requires Closed(h) && r in h && h[r].Boxed? && Balanced(h, r)
    requires forall s <- stack :: s in h && !h[s].Boxed? && Reachable(h, Object(s), r)
    ensures Count(h, Object(r), stack, inArray).Some?
  {
    forall s | Reachable(h, Object(r), s) ensures s !in stack {
      if s != r {
        NoWayBack(h, r, s, false);
      }
    }
    CountWithMore(h, Object(r), {}, stack, inArray);
    assert {} + stack == stack;
  }

  const MAX_SCRIPT_STDIN_BYTES := 1024 * 1024

  /** `assertScriptStdinPayloadSize`: false stands for its errors. */
  method ScriptStdinPayloadFits(h: Heap, payload: Value) returns (fits: bool)
    requires Closed(h) && Known(h, payload)
    ensures PlainThroughout(h, payload) ==>
      (fits <==> !Serialize(h, payload, {}).Throws? && Size(Serialize(h, payload, {}), false) <= 1_048_576)
    ensures Count(h, payload, {}, false).None? ==> !fits
  {
    var m := BoundedJsonByteLength(h, payload, MAX_SCRIPT_STDIN_BYTES, {}, false);
    fits := m.Length? && m.bytes <= MAX_SCRIPT_STDIN_BYTES;
    if PlainThroughout(h, payload) {
      PlainIsExact(h, payload);
    }
  }

  /** An array of symbols passes a limit that its text exceeds. */
  lemma SymbolItemIsUndercounted()
    ensures var h: Heap := map[0 := Array([Symbol])];
      Closed(h) && Count(h, Object(0), {}, false) == Some(2) &&
      Serialize(h, Object(0), {}) == Bytes([0x5B, 0x6E, 0x75, 0x6C, 0x6C, 0x5D])
  {
    var h: Heap := map[0 := Array([Symbol])];
    assert SerializeItems(h, [Symbol], {0}, false) == Bytes([0x6E, 0x75, 0x6C, 0x6C]);
    assert CountItems(h, [Symbol], {0}, false) == Some(0);
  }

  /** A symbol property is counted, not written. */
  lemma SymbolPropertyIsOvercounted()
    ensures var h: Heap := map[0 := Record([([], Symbol)])];
      Closed(h) && Count(h, Object(0), {}, false) == Some(5) && Serialize(h, Object(0), {}) == Bytes([0x7B, 0x7D])
  {
    var h: Heap := map[0 := Record([([], Symbol)])];
    assert SerializeEntries(h, [([], Symbol)], {0}, false) == Bytes([]);
    assert CountEntries(h, [([], Symbol)], {0}, false) == Some(3);
  }

  /** A bigint property is counted as nothing, and cannot be written. */
  lemma BigIntPropertyIsMissed()
    ensures var h: Heap := map[0 := Record([([0x61], BigInt)])];
      Closed(h) && Count(h, Object(0), {}, false) == Some(6) && Serialize(h, Object(0), {}).Throws?
  {
    var h: Heap := map[0 := Record([([0x61], BigInt)])];
    assert SerializeEntries(h, [([0x61], BigInt)], {0}, false).Throws?;
    assert QuoteBody([0x61]) == [0x61];
    assert CountEntries(h, [([0x61], BigInt)], {0}, false) == Some(4);
  }

  /** A boxed number is counted as an object without properties, and written as the number. */
  lemma BoxedNumberCountsTwo(text: seq<Byte>)
    ensures var h: Heap := map[0 := Boxed(Number(true, text), []), 1 := Array([Object(0)])];
      && Closed(h) && Count(h, Object(1), {}, false) == Some(4)
      && Serialize(h, Object(1), {}) == Bytes([0x5B] + text + [0x5D])
  {
    var h: Heap := map[0 := Boxed(Number(true, text), []), 1 := Array([Object(0)])];
    var none: set<Ref> := {};
    assert none + {1} == {1} && [Object(0)][1..] == [];
    OneItem(h, Object(0), {1}, text);
    assert Count(h, Object(0), {1}, true) == Some(2);
    assert CountItems(h, [Object(0)], {1}, false) == Some(2);
    assert Count(h, Object(1), none, false) == Plus(2, CountItems(h, [Object(0)], none + {1}, false));
    assert Serialize(h, Object(1), none) == Wrap(0x5B, SerializeItems(h, [Object(0)], none + {1}, false), 0x5D);
  }

  lemma OneItem(h: Heap, v: Value, stack: set<Ref>, text: seq<Byte>)
    requires Closed(h) && Known(h, v) && Serialize(h, v, stack) == Bytes(text)
    ensures SerializeItems(h, [v], stack, false) == Bytes(text)
  {
    assert [v][1..] == [];
    assert SerializeItems(h, [v], stack, false) == Join([] + text, Bytes([]));
    assert [] + text == text && text + [] == text;
  }

  /** A boxed bigint is counted so too, and cannot be written. */
  lemma BoxedBigIntIsMissed()
    ensures var h: Heap := map[0 := Boxed(BigInt, [])];
      Closed(h) && Count(h, Object(0), {}, false) == Some(2) && Serialize(h, Object(0), {}).Throws?
  {
  }

  /** A boxed number with itself as a property is refused, and can be written. */
  lemma BoxedCycleIsRefused()
    ensures var h: Heap := map[0 := Boxed(Number(true, [0x31]), [([], Object(0))])];
      Closed(h) && Count(h, Object(0), {}, false).None? && Serialize(h, Object(0), {}) == Bytes([0x31])
  {
    var h: Heap := map[0 := Boxed(Number(true, [0x31]), [([], Object(0))])];
    assert CountEntries(h, [([], Object(0))], {0}, false).None?;
  }

  // ---------------------------------------------------------------------------------------------
  // Cycles

  /** What is counted holds no cycle: no path out of it meets a reference on the stack, or one of its own again. */
  lemma {:induction false} CountedIsAcyclic(h: Heap, path: seq<Ref>, stack: set<Ref>, inArray: bool)
    requires Closed(h) && Path(h, path) && path[0] in h && Count(h, Object(path[0]), stack, inArray).Some?
    ensures forall i | 0 <= i < |path| :: path[i] !in stack
    ensures forall i, j | 0 <= i < j < |path| :: path[i] != path[j]
    decreases |path|
  {
    if |path| > 1 {
      assert Child(h, path[0], path[1]);
      CountedChild(h, path[0], stack, inArray, path[1]);
      CountedIsAcyclic(h, path[1..], stack + {path[0]}, false);
      assert forall i | 1 <= i < |path| :: path[i] == path[1..][i - 1];
    }
  }

  /** `rank` witnesses that no object contains itself. */
  ghost predicate Ranked(h: Heap, rank: map<Ref, nat>) {
    h.Keys <= rank.Keys && forall r, c | Child(h, r, c) && c in h :: rank[c] < rank[r]
  }

  /** On an acyclic heap the calculator never reports a cycle. */
  lemma {:induction false} AcyclicIsCounted(h: Heap, rank: map<Ref, nat>, r: Ref, stack: set<Ref>, inArray: bool)
    requires Closed(h) && Ranked(h, rank) && r in h
    requires stack <= h.Keys && forall s <- stack :: rank[r] < rank[s]
    ensures Count(h, Object(r), stack, inArray).Some?
    decreases rank[r], 0
  {
    match h[r]
    case Array(items) =>
      assert forall v <- items :: v.Object? ==> Child(h, r, v.r);
      AcyclicItems(h, rank, r, items, stack + {r}, false);
    case Record(entries) =>
      assert forall i | 0 <= i < |entries| :: entries[i].1.Object? ==> Child(h, r, entries[i].1.r);
      AcyclicEntries(h, rank, r, entries, stack + {r}, false);
    case Boxed(_, entries) =>
      assert forall i | 0 <= i < |entries| :: entries[i].1.Object? ==> Child(h, r, entries[i].1.r);
      AcyclicEntries(h, rank, r, entries, stack + {r}, false);
  }

  lemma {:induction false} AcyclicItems(
    h: Heap, rank: map<Ref, nat>, r: Ref, items: seq<Value>, stack: set<Ref>, started: bool)
    requires Closed(h) && Ranked(h, rank) && r in h && (forall v <- items :: Known(h, v))
    requires stack <= h.Keys && forall s <- stack :: rank[r] <= rank[s]
    requires forall v <- items :: v.Object? ==> v.r in h && rank[v.r] < rank[r]
    ensures CountItems(h, items, stack, started).Some?
    decreases rank[r], 0, |items|
  {
    if items != [] {
      if items[0].Object? {
        AcyclicIsCounted(h, rank, items[0].r, stack, true);
      }
      AcyclicItems(h, rank, r, items[1..], stack, true);
    }
  }

  lemma {:induction false} AcyclicEntries(
    h: Heap, rank: map<Ref, nat>, r: Ref, entries: seq<(Str, Value)>, stack: set<Ref>, started: bool)
    requires Closed(h) && Ranked(h, rank) && r in h && (forall e <- entries :: Known(h, e.1))
    requires stack <= h.Keys && forall s <- stack :: rank[r] <= rank[s]
    requires forall e <- entries :: e.1.Object? ==> e.1.r in h && rank[e.1.r] < rank[r]
    ensures CountEntries(h, entries, stack, started).Some?
    decreases rank[r], 0, |entries|
  {
    if entries != [] {
      if entries[0].1.Object? {
        AcyclicIsCounted(h, rank, entries[0].1.r, stack, false);
      }
      AcyclicEntries(h, rank, r, entries[1..], stack, started);
      AcyclicEntries(h, rank, r, entries[1..], stack, true);
    }
  }
}

/** The laws of `RecorderLog.Codec` can be met: a codec that spells numbers in unary obeys them. */
module RecorderCodec {
  import opened Common
  import opened RecorderLog

  // ---------------------------------------------------------------------------------------------
  // Records as numbers

  function Text(s: string): seq<nat> {
    [|s|] + seq(|s|, i requires 0 <= i < |s| => s[i] as nat)
  }

  function Chars(ns: seq<nat>, n: nat): Option<string>
    requires n <= |ns|
  {
    if n == 0 then Some("")
    else match Chars(ns, n - 1)
      case None => None
      case Some(s) => if ns[n - 1] < 0xD800 || 0xE000 <= ns[n - 1] < 0x110000 then Some(s + [ns[n - 1] as char])
        else None
  }

  function ReadText(ns: seq<nat>): (r: Option<(string, seq<nat>)>)
    ensures r.Some? ==> |r.value.1| < |ns|
  {
    if ns == [] || ns[0] > |ns| - 1 then None
    else match Chars(ns[1..], ns[0])
      case None => None
      case Some(s) => Some((s, ns[1..][ns[0]..]))
  }

  lemma {:induction false} CharsOfText(s: string, rest: seq<nat>, n: nat)
    requires n <= |s|
    ensures Chars(Text(s)[1..] + rest, n) == Some(s[..n])
  {
    if n > 0 {
      CharsOfText(s, rest, n - 1);
      assert (Text(s)[1..] + rest)[n - 1] == s[n - 1] as nat;
      assert s[..n] == s[..n - 1] + [s[n - 1]];
    }
  }

  lemma TextReads(s: string, rest: seq<nat>)
    ensures ReadText(Text(s) + rest) == Some((s, rest))
  {
    var ns := Text(s) + rest;
    assert ns[1..] == Text(s)[1..] + rest && ns[1..][|s|..] == rest;
    CharsOfText(s, rest, |s|);
    assert s[..|s|] == s;
  }

  lemma {:induction false} CharsExtend(ns: seq<nat>, more: seq<nat>, n: nat)
    requires n <= |ns|
    ensures Chars(ns + more, n) == Chars(ns, n)
  {
    if n > 0 {
      CharsExtend(ns, more, n - 1);
    }
  }

  function Texts(texts: seq<string>): seq<nat> {
    if texts == [] then [] else Text(texts[0]) + Texts(texts[1..])
  }

  function ReadTexts(ns: seq<nat>, n: nat): (r: Option<seq<string>>)
    ensures r.Some? ==> |r.value| == n
  {
    if n == 0 then Some([])
    else match ReadText(ns)
      case None => None
      case Some((s, rest)) =>
        match ReadTexts(rest, n - 1)
        case None => None
        case Some(more) => Some([s] + more)
  }

  lemma {:induction false} TextsRead(texts: seq<string>)
    ensures ReadTexts(Texts(texts), |texts|) == Some(texts)
    decreases |texts|
  {
    hide Text, ReadText;
    if texts != [] {
      TextReads(texts[0], Texts(texts[1..]));
      TextsRead(texts[1..]);
      assert texts == [texts[0]] + texts[1..];
    }
  }

  function TextsOf(e: Event): seq<string> {
    var direction := if e.recordedDirection.Some? then e.recordedDirection.value else "";
    [e.author, e.id, e.provider, direction, e.sentAt, e.text, e.threadId]
  }

  function Numbers(e: Event): seq<nat> {
    [if e.rawOutbound then 1 else 0, if e.recordedDirection.Some? then 1 else 0] + Texts(TextsOf(e))
  }

  function ReadEvent(ns: seq<nat>): Option<Event> {
    if |ns| < 2 then None
    else match ReadTexts(ns[2..], 7)
      case None => None
      case Some(t) =>
        Some(Event(t[0], t[1], t[2], ns[0] == 1, if ns[1] == 1 then Some(t[3]) else None, t[4], t[5], t[6]))
  }

  lemma EventReads(e: Event)
    ensures ReadEvent(Numbers(e)) == Some(e)
  {
    TextsRead(TextsOf(e));
    hide Texts, ReadTexts;
    assert Numbers(e)[2..] == Texts(TextsOf(e));
  }

  // ---------------------------------------------------------------------------------------------
  // Numbers as bytes: 1 counts, 2 ends a number, 3 ends a record, 4 ends the batch

  function Unary(n: nat): seq<Byte> {
    if n == 0 then [2] else [1] + Unary(n - 1)
  }

  function Spell(ns: seq<nat>): seq<Byte> {
    if ns == [] then [3] else Unary(ns[0]) + Spell(ns[1..])
  }

  function SpellAll(es: seq<Event>): seq<Byte> {
    if es == [] then [4] else Spell(Numbers(es[0])) + SpellAll(es[1..])
  }

  /** A reader of bytes: records done, numbers of the current record, the current number. */
  datatype Progress =
    | Progress(records: seq<seq<nat>>, numbers: seq<nat>, count: nat)
    | Over(records: seq<seq<nat>>)
    | Wrong

  function Step(p: Progress, b: Byte): Progress {
    if !p.Progress? then Wrong
    else if b == 1 then p.(count := p.count + 1)
    else if b == 2 then Progress(p.records, p.numbers + [p.count], 0)
    else if b == 3 && p.count == 0 then Progress(p.records + [p.numbers], [], 0)
    else if b == 4 && p.numbers == [] && p.count == 0 then Over(p.records)
    else Wrong
  }

  function Steps(p: Progress, bytes: seq<Byte>): Progress
    decreases |bytes|
  {
    if bytes == [] then p else Steps(Step(p, bytes[0]), bytes[1..])
  }

  lemma {:induction false} StepsConcat(p: Progress, a: seq<Byte>, b: seq<Byte>)
    ensures Steps(p, a + b) == Steps(Steps(p, a), b)
    decreases |a|
  {
    if a == [] {
      assert a + b == b;
    } else {
      assert (a + b)[1..] == a[1..] + b;
      StepsConcat(Step(p, a[0]), a[1..], b);
    }
  }

  lemma {:induction false} NothingFollows(p: Progress, bytes: seq<Byte>)
    requires !p.Progress? && bytes != []
    ensures Steps(p, bytes) == Wrong
    decreases |bytes|
  {
    if |bytes| > 1 {
      NothingFollows(Wrong, bytes[1..]);
    }
  }

  lemma {:induction false} UnarySteps(p: Progress, n: nat)
    requires p.Progress?
    ensures Steps(p, Unary(n)) == Progress(p.records, p.numbers + [p.count + n], 0)
    decreases n
  {
    if n > 0 {
      assert Unary(n)[1..] == Unary(n - 1);
      UnarySteps(p.(count := p.count + 1), n - 1);
    }
  }

  lemma {:induction false} SpellSteps(p: Progress, ns: seq<nat>)
    requires p.Progress? && p.count == 0
    ensures Steps(p, Spell(ns)) == Progress(p.records + [p.numbers + ns], [], 0)
    decreases |ns|
  {
    if ns == [] {
      assert p.numbers + ns == p.numbers;
    } else {
      UnarySteps(p, ns[0]);
      StepsConcat(p, Unary(ns[0]), Spell(ns[1..]));
      SpellSteps(Progress(p.records, p.numbers + [ns[0]], 0), ns[1..]);
      assert p.numbers + [ns[0]] + ns[1..] == p.numbers + ns;
    }
  }

  function AllNumbers(es: seq<Event>): seq<seq<nat>> {
    seq(|es|, i requires 0 <= i < |es| => Numbers(es[i]))
  }

  lemma {:induction false} SpellAllSteps(records: seq<seq<nat>>, es: seq<Event>)
    ensures Steps(Progress(records, [], 0), SpellAll(es)) == Over(records + AllNumbers(es))
    decreases |es|
  {
    if es == [] {
      assert records + AllNumbers(es) == records;
    } else {
      var p := Progress(records, [], 0);
      SpellSteps(p, Numbers(es[0]));
      StepsConcat(p, Spell(Numbers(es[0])), SpellAll(es[1..]));
      SpellAllSteps(records + [Numbers(es[0])], es[1..]);
      assert [] + Numbers(es[0]) == Numbers(es[0]);
      assert records + [Numbers(es[0])] + AllNumbers(es[1..]) == records + AllNumbers(es);
    }
  }

  function ReadAllEvents(records: seq<seq<nat>>): Option<seq<Event>> {
    if records == [] then Some([])
    else match ReadEvent(records[0])
      case None => None
      case Some(e) =>
        match ReadAllEvents(records[1..])
        case None => None
        case Some(es) => Some([e] + es)
  }

  lemma {:induction false} AllRead(es: seq<Event>)
    ensures ReadAllEvents(AllNumbers(es)) == Some(es)
    decreases |es|
  {
    hide Numbers, ReadEvent;
    if es != [] {
      EventReads(es[0]);
      AllRead(es[1..]);
      assert AllNumbers(es)[1..] == AllNumbers(es[1..]);
      assert es == [es[0]] + es[1..];
    }
  }

  function Parse(bytes: seq<Byte>): Parsed {
    match Steps(Progress([], [], 0), bytes)
    case Over(records) => (match ReadAllEvents(records)
      case Some(es) => if AllWellFormed(es) then Events(es) else BadEnvelope
      case None => BadEnvelope)
    case _ => SyntaxError
  }

  lemma {:induction false} OnlyDigits(n: nat)
    ensures forall b <- Unary(n) :: b < 3
  {
    if n > 0 {
      OnlyDigits(n - 1);
    }
  }

  lemma {:induction false} SpellIsLow(ns: seq<nat>)
    ensures forall b <- Spell(ns) :: b < 4
    decreases |ns|
  {
    if ns != [] {
      OnlyDigits(ns[0]);
      SpellIsLow(ns[1..]);
    }
  }

  lemma {:induction false} NoNewline(es: seq<Event>)
    ensures forall b <- SpellAll(es) :: b < 5
    ensures SpellAll(es) != []
    decreases |es|
  {
    if es != [] {
      SpellIsLow(Numbers(es[0]));
      NoNewline(es[1..]);
    }
  }

  /** A batch text is over only at its end. */
  lemma PrefixIsNoText(es: seq<Event>, k: nat)
    requires k < |SpellAll(es)|
    ensures Parse(SpellAll(es)[..k]).SyntaxError?
  {
    var text := SpellAll(es);
    assert text == text[..k] + text[k..];
    StepsConcat(Progress([], [], 0), text[..k], text[k..]);
    SpellAllSteps([], es);
    if !Steps(Progress([], [], 0), text[..k]).Progress? {
      NothingFollows(Steps(Progress([], [], 0), text[..k]), text[k..]);
    }
  }

  lemma LawsCanBeMet()
    ensures exists codec: Codec :: codec.Lawful()
  {
    var codec := Codec(b => Parse(b), b => b == [], es => SpellAll(es));
    forall es: seq<Event>
      ensures NEWLINE !in codec.encode(es) && !codec.blank(codec.encode(es))
      ensures codec.parse(codec.encode(es)) == if AllWellFormed(es) then Events(es) else BadEnvelope
    {
      NoNewline(es);
      SpellAllSteps([], es);
      assert [] + AllNumbers(es) == AllNumbers(es);
      AllRead(es);
    }
    forall es: seq<Event>, k | 0 <= k < |codec.encode(es)| ensures codec.parse(codec.encode(es)[..k]).SyntaxError? {
      PrefixIsNoText(es, k);
    }
    assert codec.Lawful();
  }
}

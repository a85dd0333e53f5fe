/** QA targets (src/openclaw/shared.ts): the printer `qaTargetForInbound` and the parser `parseQaTarget`.
    Texts are sequences of UTF-16 code units. */
module QaTarget {
  import opened Common

  type CodeUnit = c: int | 0 <= c < 0x10000
  type Text = seq<CodeUnit>

  const PERCENT: CodeUnit := 0x25
  const SLASH: CodeUnit := 0x2F
  const COLON: CodeUnit := 0x3A

  // "dm", "group", "channel", "thread" and "/v1/"
  const DM: Text := [0x64, 0x6D]
  const GROUP: Text := [0x67, 0x72, 0x6F, 0x75, 0x70]
  const CHANNEL: Text := [0x63, 0x68, 0x61, 0x6E, 0x6E, 0x65, 0x6C]
  const THREAD: Text := [0x74, 0x68, 0x72, 0x65, 0x61, 0x64]
  const VERSION: Text := [0x2F, 0x76, 0x31, 0x2F]

  predicate StartsWith(t: Text, prefix: Text) {
    |prefix| <= |t| && t[..|prefix|] == prefix
  }

  // ---------------------------------------------------------------------------------------------
  // String.prototype.trim, split and replaceAll (ECMA-262, section 22.1.3)

  predicate White(c: CodeUnit) {
    || 0x9 <= c <= 0xD || c == 0x20 || c == 0xA0 || c == 0x1680 || 0x2000 <= c <= 0x200A
    || c == 0x2028 || c == 0x2029 || c == 0x202F || c == 0x205F || c == 0x3000 || c == 0xFEFF
  }

  function TrimStart(t: Text): (r: Text)
    ensures r == [] || !White(r[0])
    ensures |r| <= |t| && r == t[|t| - |r|..]
  {
    if t != [] && White(t[0]) then TrimStart(t[1..]) else t
  }

  function TrimEnd(t: Text): (r: Text)
    ensures r == [] || !White(r[|r| - 1])
    ensures |r| <= |t| && r == t[..|r|]
  {
    if t != [] && White(t[|t| - 1]) then TrimEnd(t[..|t| - 1]) else t
  }

  predicate Trimmed(t: Text) {
    t == [] || (!White(t[0]) && !White(t[|t| - 1]))
  }

  function Trim(t: Text): (r: Text)
    ensures Trimmed(r)
    ensures Trimmed(t) ==> r == t
  {
    TrimEnd(TrimStart(t))
  }

  function Split(t: Text, separator: CodeUnit): (parts: seq<Text>)
    ensures |parts| >= 1
  {
    if t == [] then [[]]
    else
      var rest := Split(t[1..], separator);
      if t[0] == separator then [[]] + rest else [[t[0]] + rest[0]] + rest[1..]
  }

  function ReplaceAll(t: Text, c: CodeUnit, replacement: Text): Text {
    if t == [] then [] else (if t[0] == c then replacement else [t[0]]) + ReplaceAll(t[1..], c, replacement)
  }

  lemma {:induction false} SplitAt(a: Text, b: Text, separator: CodeUnit)
    requires separator !in a
    ensures Split(a + [separator] + b, separator) == [a] + Split(b, separator)
  {
    var t := a + [separator] + b;
    if a == [] {
      assert t[1..] == b;
    } else {
      SplitAt(a[1..], b, separator);
      assert t[1..] == a[1..] + [separator] + b;
      assert [a[0]] + a[1..] == a;
    }
  }

  lemma {:induction false} SplitWhole(a: Text, separator: CodeUnit)
    requires separator !in a
    ensures Split(a, separator) == [a]
  {
    if a != [] {
      SplitWhole(a[1..], separator);
      assert [a[0]] + a[1..] == a;
    }
  }

  // ---------------------------------------------------------------------------------------------
  // decodeURIComponent (ECMA-262, section 19.2.6.5; UTF-8 as in section 3 of RFC 3629)

  function HexValue(c: CodeUnit): Option<int> {
    if 0x30 <= c <= 0x39 then Some(c - 0x30)
    else if 0x41 <= c <= 0x46 then Some(c - 0x37)
    else if 0x61 <= c <= 0x66 then Some(c - 0x57)
    else None
  }

  /** The octet of an escape at the head of `t`. */
  function Octet(t: Text): (r: Option<int>)
    ensures r.Some? ==> 0 <= r.value < 0x100
  {
    if |t| < 3 || t[0] != PERCENT then None
    else match (HexValue(t[1]), HexValue(t[2]))
      case (Some(h), Some(l)) => Some(16 * h + l)
      case _ => None
  }

  /** How many octets a first octet announces. */
  function Announced(octet: int): Option<nat> {
    if octet < 0x80 then Some(1)
    else if 0xC2 <= octet <= 0xDF then Some(2)
    else if 0xE0 <= octet <= 0xEF then Some(3)
    else if 0xF0 <= octet <= 0xF4 then Some(4)
    else None
  }

  function Continuations(t: Text, n: nat): Option<seq<int>> {
    if n == 0 then Some([])
    else match Octet(t)
      case Some(o) =>
        if !(0x80 <= o < 0xC0) then None
        else (match Continuations(t[3..], n - 1)
          case Some(rest) => Some([o] + rest)
          case None => None)
      case None => None
  }

  /** The code point of a well-formed sequence: not overlong, no surrogate, not above U+10FFFF. */
  function CodePoint(first: int, rest: seq<int>): Option<int> {
    if |rest| == 0 then Some(first)
    else if |rest| == 1 then Some((first - 0xC0) * 0x40 + (rest[0] - 0x80))
    else if |rest| == 2 then
      var v := (first - 0xE0) * 0x1000 + (rest[0] - 0x80) * 0x40 + (rest[1] - 0x80);
      if v < 0x800 || 0xD800 <= v <= 0xDFFF then None else Some(v)
    else if |rest| == 3 then
      var v := (first - 0xF0) * 0x40000 + (rest[0] - 0x80) * 0x1000 + (rest[1] - 0x80) * 0x40 + (rest[2] - 0x80);
      if v < 0x10000 || v > 0x10FFFF then None else Some(v)
    else None
  }

  function Utf16(v: int): Option<Text> {
    if 0 <= v < 0x10000 then Some([v])
    else if 0x10000 <= v < 0x110000 then Some([0xD800 + (v - 0x10000) / 0x400, 0xDC00 + (v - 0x10000) % 0x400])
    else None
  }

  /** The code units of the character that is escaped at the head of `t`, and the length of its escape. */
  function Escaped(t: Text): (r: Option<(Text, nat)>)
    ensures r.Some? ==> 3 <= r.value.1
  {
    match Octet(t)
    case None => None
    case Some(first) =>
      match Announced(first)
      case None => None
      case Some(n) =>
        match Continuations(t[3..], n - 1)
        case None => None
        case Some(rest) =>
          match CodePoint(first, rest)
          case None => None
          case Some(v) =>
            match Utf16(v)
            case None => None
            case Some(units) => Some((units, 3 * n))
  }

  function Decode(t: Text): Option<Text>
    decreases |t|
  {
    if t == [] then Some([])
    else if t[0] != PERCENT then Prepend([t[0]], Decode(t[1..]))
    else match Escaped(t)
      case None => None
      case Some((units, length)) => if length > |t| then None else Prepend(units, Decode(t[length..]))
  }

  function Prepend(a: Text, r: Option<Text>): Option<Text> {
    match r
    case Some(b) => Some(a + b)
    case None => None
  }

  /** UTF-8 of a code point. */
  function Utf8(v: int): (octets: seq<int>)
    requires IsScalar(v)
    ensures 1 <= |octets| <= 4
  {
    if v < 0x80 then [v]
    else if v < 0x800 then [0xC0 + v / 0x40, 0x80 + v % 0x40]
    else if v < 0x10000 then [0xE0 + v / 0x1000, 0x80 + v / 0x40 % 0x40, 0x80 + v % 0x40]
    else [0xF0 + v / 0x40000, 0x80 + v / 0x1000 % 0x40, 0x80 + v / 0x40 % 0x40, 0x80 + v % 0x40]
  }

  predicate IsScalar(v: int) {
    0 <= v <= 0xD7FF || 0xE000 <= v <= 0x10FFFF
  }

  /** The octets of `n` escapes at the head of `t`. */
  function Octets(t: Text, n: nat): (r: Option<seq<int>>)
    ensures r.Some? ==> |r.value| == n
  {
    if n == 0 then Some([])
    else if |t| < 3 then None
    else match (Octet(t), Octets(t[3..], n - 1))
      case (Some(o), Some(rest)) => Some([o] + rest)
      case _ => None
  }

  predicate Continues(octets: seq<int>) {
    forall i | 0 <= i < |octets| :: 0x80 <= octets[i] < 0xC0
  }

  lemma {:induction false} ContinuationsAre(t: Text, n: nat)
    ensures Continuations(t, n) == if Octets(t, n).Some? && Continues(Octets(t, n).value) then Octets(t, n) else None
  {
    if n > 0 && Octet(t).Some? {
      ContinuationsAre(t[3..], n - 1);
      var rest := Octets(t[3..], n - 1);
      if rest.Some? {
        ContinuesCons(Octet(t).value, rest.value);
      }
    }
  }

  lemma ContinuesCons(o: int, rest: seq<int>)
    ensures Continues([o] + rest) <==> 0x80 <= o < 0xC0 && Continues(rest)
  {
    var all := [o] + rest;
    forall i | 0 <= i < |rest| ensures rest[i] == all[i + 1] {}
    if Continues(all) {
      assert all[0] == o;
      forall i | 0 <= i < |rest| ensures 0x80 <= rest[i] < 0xC0 {
        assert all[i + 1] == rest[i];
      }
    }
  }

  lemma Digits(v: int, b: int, c: int, high: int)
    requires 0 <= b < 0x40 && 0 <= c < 0x40
    ensures v == high * 0x1000 + b * 0x40 + c <==> high == v / 0x1000 && b == v / 0x40 % 0x40 && c == v % 0x40
  {
  }

  lemma MoreDigits(v: int, a: int, b: int, c: int, high: int)
    requires 0 <= a < 0x40 && 0 <= b < 0x40 && 0 <= c < 0x40
    ensures v == high * 0x40000 + a * 0x1000 + b * 0x40 + c <==>
      high == v / 0x40000 && a == v / 0x1000 % 0x40 && b == v / 0x40 % 0x40 && c == v % 0x40
  {
    Digits(v, b, c, high * 0x40 + a);
    Digits(v, v / 0x40 % 0x40, v % 0x40, v / 0x1000);
  }

  lemma CodePointOf(v: int)
    requires IsScalar(v)
    ensures var o := Utf8(v);
      Announced(o[0]) == Some(|o|) && CodePoint(o[0], o[1..]) == Some(v) && Continues(o[1..]) && Utf16(v).Some?
  {
    if 0x800 <= v < 0x10000 {
      Digits(v, v / 0x40 % 0x40, v % 0x40, v / 0x1000);
    } else if v >= 0x10000 {
      MoreDigits(v, v / 0x1000 % 0x40, v / 0x40 % 0x40, v % 0x40, v / 0x40000);
    }
  }

  lemma OctetsOf(first: int, rest: seq<int>)
    requires 0 <= first < 0x100 && Announced(first) == Some(|rest| + 1) && CodePoint(first, rest).Some?
    requires Continues(rest)
    ensures var v := CodePoint(first, rest).value; IsScalar(v) && Utf8(v) == [first] + rest
  {
    var v := CodePoint(first, rest).value;
    if |rest| == 2 {
      Digits(v, rest[0] - 0x80, rest[1] - 0x80, first - 0xE0);
    } else if |rest| == 3 {
      MoreDigits(v, rest[0] - 0x80, rest[1] - 0x80, rest[2] - 0x80, first - 0xF0);
    }
  }

  /** An escaped character is exactly the UTF-8 of a code point that is no surrogate, each octet escaped; and it stands
      for the code units of that code point. */
  lemma EscapedIff(t: Text, v: int)
    requires IsScalar(v)
    ensures Octets(t, |Utf8(v)|) == Some(Utf8(v)) ==> Escaped(t) == Some((Utf16(v).value, 3 * |Utf8(v)|))
    ensures Utf16(v) == Some(if v < 0x10000 then [v] else [0xD7C0 + v / 0x400, 0xDC00 + v % 0x400])
  {
    var o := Utf8(v);
    CodePointOf(v);
    if Octets(t, |o|) == Some(o) {
      hide CodePoint, Utf8, Announced, Utf16;
      var rest := Octets(t[3..], |o| - 1).value;
      assert o == [Octet(t).value] + rest;
      assert rest == o[1..];
      ContinuationsAre(t[3..], |o| - 1);
    }
  }

  lemma OnlyEscaped(t: Text)
    requires Escaped(t).Some?
    ensures exists v :: IsScalar(v) && Octets(t, |Utf8(v)|) == Some(Utf8(v))
  {
    var first := Octet(t).value;
    var n := Announced(first).value;
    var rest := Continuations(t[3..], n - 1).value;
    ContinuationsAre(t[3..], n - 1);
    OctetsOf(first, rest);
    var v := CodePoint(first, rest).value;
    assert Octets(t, n) == Some([first] + rest);
  }

  // ---------------------------------------------------------------------------------------------
  // The printer and the parser

  datatype Kind = Direct | Group

  datatype Parsed = Target(kind: Kind, id: Text, native: bool, threadId: Option<Text>) | Invalid

  /** `encodeQaThreadComponent`. */
  function Encode(t: Text): Text {
    ReplaceAll(ReplaceAll(t, PERCENT, [PERCENT, 0x32, 0x35]), SLASH, [PERCENT, 0x32, 0x46])
  }

  function Path(kind: Kind, id: Text, thread: Text): Text {
    (if kind.Direct? then DM + [SLASH] else []) + (Encode(id) + [SLASH] + Encode(thread))
  }

  function Prefix(kind: Kind): Text {
    (if kind.Direct? then DM else GROUP) + [COLON]
  }

  /** `qaTargetForInbound`, for a conversation id that is not blank; a blank one is an error. */
  function Print(kind: Kind, conversation: Text, threadId: Option<Text>): Option<Text> {
    var id := Trim(conversation);
    var thread := if threadId.Some? then Trim(threadId.value) else [];
    if id == [] then None
    else if thread != [] then
      Some(THREAD + [COLON] + VERSION + Path(kind, id, thread))
    else Some(Prefix(kind) + id)
  }

  /** How a target is written; `rest` is what follows its prefix. */
  datatype Form =
    | Thread(rest: Text, encoded: bool)
    | Prefixed(kind: Kind, rest: Text, native: bool)
    | Native
    | Malformed

  function FormOf(t: Text): (form: Form)
    ensures form.Native? ==> t != []
  {
    if t == [] then Malformed
    else if StartsWith(t, THREAD + [COLON]) then
      if StartsWith(t[7..], VERSION) then Thread(t[11..], true) else Thread(t[7..], false)
    else if StartsWith(t, CHANNEL + [COLON]) then Prefixed(Group, t[8..], true)
    else if StartsWith(t, GROUP + [COLON]) then Prefixed(Group, t[6..], false)
    else if StartsWith(t, DM + [COLON]) then Prefixed(Direct, t[3..], false)
    else if Reserves(t, DM) || Reserves(t, GROUP) || Reserves(t, CHANNEL) || Reserves(t, THREAD) then Malformed
    else Native
  }

  /** `parseQaTarget`. */
  function Parse(target: Text): Parsed {
    var t := Trim(target);
    match FormOf(t)
    case Thread(rest, encoded) => ParseThread(rest, encoded)
    case Prefixed(kind, rest, native) => Named(kind, rest, native)
    case Native => Target(Direct, t, true, None)
    case Malformed => Invalid
  }

  function Named(kind: Kind, rest: Text, native: bool): Parsed {
    var id := Trim(rest);
    if id == [] then Invalid else Target(kind, id, native, None)
  }

  function Lower(c: CodeUnit): CodeUnit {
    if 0x41 <= c <= 0x5A then c + 0x20 else c
  }

  /** The text begins with a kind's name, in any case, that is followed by the end or by a colon after
      white space. */
  predicate Reserves(t: Text, word: Text) {
    && |word| <= |t| && (forall i | 0 <= i < |word| :: Lower(t[i]) == word[i])
    && (|t| == |word| || (var rest := TrimStart(t[|word|..]); rest != [] && rest[0] == COLON))
  }

  function ParseThread(rest: Text, encoded: bool): Parsed {
    var parts := Split(rest, SLASH);
    var explicit := encoded && |parts| == 3 && (parts[0] == DM || parts[0] == GROUP);
    var kind := if explicit && parts[0] == DM then Direct else Group;
    var components := if explicit then parts[1..] else parts;
    if |components| != 2 then Invalid
    else FromParts(kind, Component(components[0], encoded), Component(components[1], encoded))
  }

  /** A thread target with these two components; `None` is one that does not decode. */
  function FromParts(kind: Kind, id: Option<Text>, thread: Option<Text>): Parsed {
    if id.None? || thread.None? || id.value == [] || thread.value == [] then Invalid
    else Target(kind, id.value, false, thread)
  }

  function Component(component: Text, encoded: bool): (r: Option<Text>)
    ensures r.Some? ==> Trimmed(r.value)
  {
    if !encoded then Some(Trim(component))
    else match Decode(Trim(component))
      case Some(t) => Some(Trim(t))
      case None => None
  }

  // ---------------------------------------------------------------------------------------------
  // The round trip

  /** The two replacements together work unit by unit. */
  function EncodeUnit(c: CodeUnit): Text {
    if c == PERCENT then [PERCENT, 0x32, 0x35] else if c == SLASH then [PERCENT, 0x32, 0x46] else [c]
  }

  lemma {:induction false} ReplaceConcat(a: Text, b: Text, c: CodeUnit, replacement: Text)
    ensures ReplaceAll(a + b, c, replacement) == ReplaceAll(a, c, replacement) + ReplaceAll(b, c, replacement)
  {
    if a == [] {
      assert a + b == b;
    } else {
      var rest := a[1..] + b;
      assert (a + b)[0] == a[0] && (a + b)[1..] == rest;
      ReplaceConcat(a[1..], b, c, replacement);
      var head := if a[0] == c then replacement else [a[0]];
      var middle, last := ReplaceAll(a[1..], c, replacement), ReplaceAll(b, c, replacement);
      assert ReplaceAll(a + b, c, replacement) == head + ReplaceAll(rest, c, replacement);
      assert head + (middle + last) == (head + middle) + last;
    }
  }

  lemma EncodeStep(t: Text)
    requires t != []
    ensures Encode(t) == EncodeUnit(t[0]) + Encode(t[1..])
  {
    var escape := [PERCENT, 0x32, 0x35];
    var head := if t[0] == PERCENT then escape else [t[0]];
    ReplaceConcat(head, ReplaceAll(t[1..], PERCENT, escape), SLASH, [PERCENT, 0x32, 0x46]);
    assert ReplaceAll(head, SLASH, [PERCENT, 0x32, 0x46]) == EncodeUnit(t[0]) by {
      if t[0] == PERCENT {
        assert escape[1..] == [0x32, 0x35] && [0x32, 0x35][1..] == [0x35];
        assert ReplaceAll([0x35], SLASH, [PERCENT, 0x32, 0x46]) == [0x35];
        assert ReplaceAll([0x32, 0x35], SLASH, [PERCENT, 0x32, 0x46]) == [0x32, 0x35];
      }
    }
  }

  lemma DecodeUnit(c: CodeUnit, rest: Text)
    ensures Decode(EncodeUnit(c) + rest) == Prepend([c], Decode(rest))
  {
    var t := EncodeUnit(c) + rest;
    if c == PERCENT || c == SLASH {
      assert t[3..] == rest;
      assert Octet(t) == Some(c);
      assert Escaped(t) == Some(([c], 3));
    } else {
      assert t[1..] == rest;
    }
  }

  lemma {:induction false} DecodeEncode(t: Text)
    ensures Decode(Encode(t)) == Some(t)
  {
    if t != [] {
      EncodeStep(t);
      DecodeEncode(t[1..]);
      DecodeUnit(t[0], Encode(t[1..]));
      assert [t[0]] + t[1..] == t;
    }
  }

  /** An encoded text has no slash, and its ends are white only if those of the text are. */
  lemma {:induction false} EncodeShape(t: Text)
    ensures SLASH !in Encode(t)
    ensures t != [] ==> Encode(t) != [] && (White(Encode(t)[0]) ==> White(t[0]))
    ensures t != [] ==> (White(Encode(t)[|Encode(t)| - 1]) ==> White(t[|t| - 1]))
  {
    if t != [] {
      EncodeStep(t);
      EncodeShape(t[1..]);
    }
  }

  lemma EncodedComponent(t: Text)
    requires Trimmed(t)
    ensures Component(Encode(t), true) == Some(t) && SLASH !in Encode(t) && Trimmed(Encode(t))
  {
    EncodeShape(t);
    DecodeEncode(t);
  }

  lemma SplitTwo(a: Text, b: Text)
    requires SLASH !in a && SLASH !in b
    ensures Split(a + [SLASH] + b, SLASH) == [a, b]
    ensures Split(DM + [SLASH] + (a + [SLASH] + b), SLASH) == [DM, a, b]
  {
    SplitAt(a, b, SLASH);
    SplitWhole(b, SLASH);
    SplitAt(DM, a + [SLASH] + b, SLASH);
  }

  lemma ParseParts(kind: Kind, a: Text, b: Text)
    requires SLASH !in a && SLASH !in b
    ensures ParseThread((if kind.Direct? then DM + [SLASH] else []) + (a + [SLASH] + b), true)
      == FromParts(kind, Component(a, true), Component(b, true))
  {
    hide Component, Split;
    SplitTwo(a, b);
    assert [] + (a + [SLASH] + b) == a + [SLASH] + b;
    assert [DM, a, b][1..] == [a, b];
  }

  lemma ParseEncodedThread(kind: Kind, id: Text, thread: Text)
    requires Trimmed(id) && Trimmed(thread) && id != [] && thread != []
    ensures ParseThread(Path(kind, id, thread), true) == Target(kind, id, false, Some(thread))
  {
    EncodedComponent(id);
    EncodedComponent(thread);
    hide Component, ParseThread, Encode;
    ParseParts(kind, Encode(id), Encode(thread));
  }

  /** A text that is printed begins with a letter and ends as its last component does. */
  lemma PrintedIsTrimmed(prefix: Text, rest: Text)
    requires prefix != [] && !White(prefix[0]) && rest != [] && !White(rest[|rest| - 1])
    ensures Trim(prefix + rest) == prefix + rest
  {
  }

  lemma Begins(prefix: Text, rest: Text)
    ensures StartsWith(prefix + rest, prefix) && (prefix + rest)[|prefix|..] == rest
  {
  }

  lemma ParsePrintedThread(rest: Text)
    requires rest != [] && !White(rest[|rest| - 1])
    ensures Parse(THREAD + [COLON] + VERSION + rest) == ParseThread(rest, true)
  {
    PrintedIsTrimmed(THREAD + [COLON] + VERSION, rest);
    ThreadForm(rest);
    hide FormOf, ParseThread, Trim;
  }

  lemma ThreadForm(rest: Text)
    ensures FormOf(THREAD + [COLON] + VERSION + rest) == Thread(rest, true)
  {
    var t := THREAD + [COLON] + VERSION + rest;
    ThreadPrefix(rest);
    hide StartsWith, Reserves;
    assert t != [];
  }

  lemma ThreadPrefix(rest: Text)
    ensures var t := THREAD + [COLON] + VERSION + rest;
      StartsWith(t, THREAD + [COLON]) && StartsWith(t[7..], VERSION) && t[11..] == rest
  {
    Begins(THREAD + [COLON], VERSION + rest);
    Begins(VERSION, rest);
    assert THREAD + [COLON] + VERSION + rest == THREAD + [COLON] + (VERSION + rest);
  }

  /** The first letters of the four names differ. */
  lemma FirstLetter(t: Text)
    ensures StartsWith(t, THREAD + [COLON]) ==> t != [] && t[0] == 0x74
    ensures StartsWith(t, CHANNEL + [COLON]) ==> t != [] && t[0] == 0x63
    ensures StartsWith(t, GROUP + [COLON]) ==> t != [] && t[0] == 0x67
  {
    assert (THREAD + [COLON])[0] == 0x74 && (CHANNEL + [COLON])[0] == 0x63 && (GROUP + [COLON])[0] == 0x67;
  }

  lemma ParsePrefixed(t: Text, kind: Kind, id: Text)
    requires Trimmed(t) && FormOf(t) == Prefixed(kind, id, false)
    ensures Parse(t) == Named(kind, id, false)
  {
    assert Trim(t) == t;
    hide FormOf, Trim, Named, Trimmed;
  }

  lemma ParseNamed(kind: Kind, id: Text)
    requires Trimmed(id) && id != []
    ensures Parse(Prefix(kind) + id) == Target(kind, id, false, None)
  {
    assert Trim(id) == id;
    assert Named(kind, id, false) == Target(kind, id, false, None);
    PrefixedIsTrimmed(kind, id);
    NamedForm(kind, id);
    hide *;
    ParsePrefixed(Prefix(kind) + id, kind, id);
  }

  lemma PrefixedIsTrimmed(kind: Kind, id: Text)
    requires Trimmed(id) && id != []
    ensures Trimmed(Prefix(kind) + id)
  {
  }

  lemma NamedForm(kind: Kind, id: Text)
    ensures FormOf(Prefix(kind) + id) == Prefixed(kind, id, false)
  {
    var t := Prefix(kind) + id;
    Begins(Prefix(kind), id);
    FirstLetter(t);
    assert t[0] == if kind.Direct? then 0x64 else 0x67;
    hide Reserves, StartsWith;
    if kind.Direct? {
      assert StartsWith(t, DM + [COLON]) && t[3..] == id;
    } else {
      assert StartsWith(t, GROUP + [COLON]) && t[6..] == id;
    }
  }

  /** `threadId` as it counts: trimmed, and none if blank. */
  function ThreadOf(threadId: Option<Text>): Option<Text> {
    if threadId.Some? && Trim(threadId.value) != [] then Some(Trim(threadId.value)) else None
  }

  /** Printing, then parsing, gives back the kind, the trimmed conversation id and the trimmed thread id. */
  lemma RoundTrip(kind: Kind, conversation: Text, threadId: Option<Text>)
    requires Trim(conversation) != []
    ensures Print(kind, conversation, threadId).Some?
    ensures Parse(Print(kind, conversation, threadId).value)
      == Target(kind, Trim(conversation), false, ThreadOf(threadId))
  {
    hide Parse, ParseThread, FromParts, Trim;
    var id := Trim(conversation);
    match ThreadOf(threadId)
    case None => ParseNamed(kind, id);
    case Some(thread) =>
      var rest := Path(kind, id, thread);
      EncodeShape(thread);
      EncodedComponent(thread);
      ParsePrintedThread(rest);
      ParseEncodedThread(kind, id, thread);
  }

  /** Equal texts come only from equal kinds, trimmed ids and trimmed thread ids. */
  lemma PrintIsInjective(k1: Kind, c1: Text, t1: Option<Text>, k2: Kind, c2: Text, t2: Option<Text>)
    requires Trim(c1) != [] && Trim(c2) != []
    ensures Print(k1, c1, t1) == Print(k2, c2, t2) <==>
      k1 == k2 && Trim(c1) == Trim(c2) && ThreadOf(t1) == ThreadOf(t2)
  {
    RoundTrip(k1, c1, t1);
    RoundTrip(k2, c2, t2);
  }

  /** Whatever parses, other than as a native target, means the same after it is printed again. */
  lemma Canonical(target: Text)
    ensures var p := Parse(target);
      p.Target? && !p.native ==>
        Print(p.kind, p.id, p.threadId).Some? && Parse(Print(p.kind, p.id, p.threadId).value) == p
  {
    ParsedIsTrimmed(target);
    var p := Parse(target);
    hide Parse, Print;
    if p.Target? && !p.native {
      RoundTrip(p.kind, p.id, p.threadId);
    }
  }

  // ---------------------------------------------------------------------------------------------
  // The other targets

  /** A text that begins with the name of a kind, in any case, is none of a native target. */
  predicate NamesKind(t: Text, word: Text) {
    && |word| <= |t|
    && (forall i | 0 <= i < |word| :: t[i] == word[i] || word[i] as int - t[i] as int == 0x20)
    && (|t| == |word| || exists j | |word| <= j < |t| :: t[j] == 0x3A && forall i | |word| <= i < j :: White(t[i]))
  }

  lemma TrimStartTo(t: Text, j: nat)
    requires j < |t| && !White(t[j]) && forall i | 0 <= i < j :: White(t[i])
    ensures TrimStart(t) == t[j..]
  {
    if j > 0 {
      TrimStartTo(t[1..], j - 1);
    }
  }

  lemma TrimStartAt(t: Text)
    requires TrimStart(t) != []
    ensures var j := |t| - |TrimStart(t)|;
      TrimStart(t) == t[j..] && forall i | 0 <= i < j :: White(t[i])
  {
    if t != [] && White(t[0]) {
      TrimStartAt(t[1..]);
    }
  }

  lemma SameLetter(c: CodeUnit, small: CodeUnit)
    requires 0x61 <= small <= 0x7A
    ensures Lower(c) == small <==> c == small || small as int - c as int == 0x20
  {
  }

  lemma ColonFirst(t: Text, k: nat) returns (j: nat)
    requires k < |t| && TrimStart(t[k..]) != [] && TrimStart(t[k..])[0] == COLON
    ensures k <= j < |t| && t[j] == 0x3A && forall i | k <= i < j :: White(t[i])
  {
    var rest := t[k..];
    TrimStartAt(rest);
    hide White, TrimStart;
    j := |t| - |TrimStart(rest)|;
    assert t[j] == rest[j - k];
    forall i | k <= i < j ensures White(t[i]) {
      assert t[i] == rest[i - k];
    }
  }

  lemma FirstColon(t: Text, k: nat, j: nat)
    requires k <= j < |t| && t[j] == 0x3A && forall i | k <= i < j :: White(t[i])
    ensures TrimStart(t[k..]) == t[j..]
  {
    var rest := t[k..];
    assert !White(0x3A);
    hide White, TrimStart;
    TrimStartTo(rest, j - k);
    assert rest[j - k..] == t[j..];
  }

  lemma ColonFollows(t: Text, k: nat)
    requires k < |t|
    ensures (TrimStart(t[k..]) != [] && TrimStart(t[k..])[0] == COLON) <==>
      exists j | k <= j < |t| :: t[j] == 0x3A && forall i | k <= i < j :: White(t[i])
  {
    hide White, TrimStart;
    if TrimStart(t[k..]) != [] && TrimStart(t[k..])[0] == COLON {
      var j := ColonFirst(t, k);
    } else if j :| k <= j < |t| && t[j] == 0x3A && forall i | k <= i < j :: White(t[i]) {
      FirstColon(t, k, j);
    }
  }

  lemma ReservesIff(t: Text, word: Text)
    requires forall c <- word :: 0x61 <= c <= 0x7A
    ensures Reserves(t, word) <==> NamesKind(t, word)
  {
    hide White, TrimStart, Lower;
    if |word| <= |t| {
      forall i | 0 <= i < |word|
        ensures Lower(t[i]) == word[i] <==> t[i] == word[i] || word[i] as int - t[i] as int == 0x20
      {
        assert word[i] in word;
        SameLetter(t[i], word[i]);
      }
      if |t| > |word| {
        ColonFollows(t, |word|);
      }
    }
  }

  lemma PrefixReserves(t: Text, word: Text)
    requires StartsWith(t, word + [COLON]) && forall c <- word :: 0x61 <= c <= 0x7A
    ensures Reserves(t, word)
  {
    assert (word + [COLON])[|word|] == t[|word|] == COLON;
    assert forall i | 0 <= i < |word| :: t[i] == (word + [COLON])[i] == word[i] && word[i] in word;
    TrimStartTo(t[|word|..], 0);
  }

  lemma NativeForm(t: Text)
    ensures FormOf(t).Native? <==>
      t != [] && !Reserves(t, DM) && !Reserves(t, GROUP) && !Reserves(t, CHANNEL) && !Reserves(t, THREAD)
  {
    hide StartsWith, Reserves;
    if StartsWith(t, THREAD + [COLON]) {
      PrefixReserves(t, THREAD);
    } else if StartsWith(t, CHANNEL + [COLON]) {
      PrefixReserves(t, CHANNEL);
    } else if StartsWith(t, GROUP + [COLON]) {
      PrefixReserves(t, GROUP);
    } else if StartsWith(t, DM + [COLON]) {
      PrefixReserves(t, DM);
    }
  }

  lemma OnlyNativeForm(target: Text)
    ensures var t, p := Trim(target), Parse(target);
      p.Target? && p.native && p.kind == Direct <==> FormOf(t).Native?
    ensures FormOf(Trim(target)).Native? ==> Parse(target) == Target(Direct, Trim(target), true, None)
  {
    var t := Trim(target);
    hide Trim, StartsWith, Reserves, Split, Component;
    if !FormOf(t).Native? {
      match FormOf(t)
      case Thread(rest, encoded) =>
      case Prefixed(kind, rest, native) => assert kind.Group? || !native;
      case Malformed =>
    }
  }

  /** A target is native, with its trimmed text as the id of a person, exactly if it is not blank and names no kind. */
  lemma NativeIff(target: Text)
    ensures var t, p := Trim(target), Parse(target);
      && (p.Target? && p.native && p.kind == Direct <==>
            && t != [] && !NamesKind(t, [0x64, 0x6D]) && !NamesKind(t, [0x67, 0x72, 0x6F, 0x75, 0x70])
            && !NamesKind(t, [0x63, 0x68, 0x61, 0x6E, 0x6E, 0x65, 0x6C])
            && !NamesKind(t, [0x74, 0x68, 0x72, 0x65, 0x61, 0x64]))
      && (p.Target? && p.native && p.kind == Direct ==> p.id == t && p.threadId == None)
  {
    hide Reserves, NamesKind, Trim, FormOf, Parse;
    var t := Trim(target);
    OnlyNativeForm(target);
    NativeForm(t);
    ReservesIff(t, DM);
    ReservesIff(t, GROUP);
    ReservesIff(t, CHANNEL);
    ReservesIff(t, THREAD);
  }

  /** What is written for a person or a group, and for a thread, in code units. */
  lemma Written(kind: Kind, conversation: Text, threadId: Option<Text>)
    ensures var p, id := Print(kind, conversation, threadId), Trim(conversation);
      && (p.Some? <==> id != [])
      && (id != [] && ThreadOf(threadId) == None ==>
            p.value == (if kind.Direct? then [0x64, 0x6D, 0x3A] else [0x67, 0x72, 0x6F, 0x75, 0x70, 0x3A]) + id)
      && (id != [] && ThreadOf(threadId).Some? ==>
            var prefix := if kind.Direct? then [0x64, 0x6D, 0x2F] else [];
            p.value == [0x74, 0x68, 0x72, 0x65, 0x61, 0x64, 0x3A, 0x2F, 0x76, 0x31, 0x2F] +
              (prefix + (Encode(id) + [0x2F] + Encode(ThreadOf(threadId).value))))
  {
    hide Encode, Trim;
  }

  /** A channel is a group by its native id. */
  lemma ChannelIsNative(id: Text)
    requires Trimmed(id) && id != []
    ensures Parse([0x63, 0x68, 0x61, 0x6E, 0x6E, 0x65, 0x6C, 0x3A] + id) == Target(Group, id, true, None)
  {
    var t := [0x63, 0x68, 0x61, 0x6E, 0x6E, 0x65, 0x6C, 0x3A] + id;
    assert CHANNEL + [COLON] == [0x63, 0x68, 0x61, 0x6E, 0x6E, 0x65, 0x6C, 0x3A];
    Begins(CHANNEL + [COLON], id);
    FirstLetter(t);
    assert Trimmed(t);
    assert Trim(t) == t && Trim(id) == id;
    hide Reserves, StartsWith, Trim, Trimmed;
    assert FormOf(t) == Prefixed(Group, id, true);
  }

  /** A thread without the version is one of a group, and its components are taken as they are. */
  lemma PlainThread(id: Text, thread: Text)
    requires Trimmed(id) && id != [] && SLASH !in id && Trimmed(thread) && thread != [] && SLASH !in thread
    ensures Parse([0x74, 0x68, 0x72, 0x65, 0x61, 0x64, 0x3A] + (id + [0x2F] + thread)) ==
      Target(Group, id, false, Some(thread))
  {
    assert THREAD + [COLON] == [0x74, 0x68, 0x72, 0x65, 0x61, 0x64, 0x3A];
    hide *;
    PlainForm(id, thread);
    PlainParts(id, thread);
    LastOfPlain(id, thread);
    ParsePlain(id + [SLASH] + thread);
  }

  lemma LastOfPlain(id: Text, thread: Text)
    requires Trimmed(thread) && thread != []
    ensures var rest := id + [SLASH] + thread; !White(rest[|rest| - 1])
  {
  }

  lemma ParsePlain(rest: Text)
    requires rest != [] && !White(rest[|rest| - 1]) && FormOf(THREAD + [COLON] + rest) == Thread(rest, false)
    ensures Parse(THREAD + [COLON] + rest) == ParseThread(rest, false)
  {
    PrintedIsTrimmed(THREAD + [COLON], rest);
    hide FormOf, ParseThread, Trim;
  }

  lemma PlainForm(id: Text, thread: Text)
    requires id != [] && SLASH !in id
    ensures FormOf(THREAD + [COLON] + (id + [SLASH] + thread)) == Thread(id + [SLASH] + thread, false)
  {
    var rest := id + [SLASH] + thread;
    var t := THREAD + [COLON] + rest;
    Begins(THREAD + [COLON], rest);
    assert !StartsWith(t[7..], VERSION) by {
      assert t[7..] == rest && rest[0] == id[0] && id[0] in id;
      assert VERSION[0] == SLASH;
    }
    hide Reserves, StartsWith;
  }

  lemma PlainComponent(t: Text)
    requires Trimmed(t)
    ensures Component(t, false) == Some(t)
  {
  }

  lemma PlainParts(id: Text, thread: Text)
    requires Trimmed(id) && id != [] && SLASH !in id && Trimmed(thread) && thread != [] && SLASH !in thread
    ensures ParseThread(id + [SLASH] + thread, false) == Target(Group, id, false, Some(thread))
  {
    PlainComponent(id);
    PlainComponent(thread);
    hide Component, Split, Trim, Trimmed, Decode;
    SplitTwo(id, thread);
    assert ParseThread(id + [SLASH] + thread, false)
      == FromParts(Group, Component(id, false), Component(thread, false));
  }

  /** What a result must be to print again. */
  predicate IsTrimmed(p: Parsed) {
    p.Target? ==>
      && Trimmed(p.id) && p.id != []
      && (p.threadId.Some? ==> Trimmed(p.threadId.value) && p.threadId.value != [])
  }

  lemma NamedIsTrimmed(kind: Kind, rest: Text, native: bool)
    ensures IsTrimmed(Named(kind, rest, native))
  {
  }

  lemma PartsAreTrimmed(kind: Kind, a: Text, b: Text, encoded: bool)
    ensures IsTrimmed(FromParts(kind, Component(a, encoded), Component(b, encoded)))
  {
    hide Component;
  }

  lemma ThreadIsTrimmed(rest: Text, encoded: bool)
    ensures IsTrimmed(ParseThread(rest, encoded))
  {
    var parts := Split(rest, SLASH);
    hide Split, Component, FromParts, IsTrimmed;
    assert IsTrimmed(Invalid) by {
      InvalidIsTrimmed();
    }
    forall kind: Kind, a: Text, b: Text
      ensures IsTrimmed(FromParts(kind, Component(a, encoded), Component(b, encoded)))
    {
      PartsAreTrimmed(kind, a, b, encoded);
    }
  }

  lemma InvalidIsTrimmed()
    ensures IsTrimmed(Invalid)
  {
  }

  lemma NativeIsTrimmed(t: Text)
    requires Trimmed(t) && t != []
    ensures IsTrimmed(Target(Direct, t, true, None))
  {
  }

  lemma ParsedIsTrimmed(target: Text)
    ensures IsTrimmed(Parse(target))
  {
    var t := Trim(target);
    assert Trimmed(t);
    hide FormOf, ParseThread, Named, Trim, Trimmed, IsTrimmed;
    match FormOf(t)
    case Thread(rest, encoded) => ThreadIsTrimmed(rest, encoded);
    case Prefixed(kind, rest, native) => NamedIsTrimmed(kind, rest, native);
    case Native => NativeIsTrimmed(t);
    case Malformed => InvalidIsTrimmed();
  }
}

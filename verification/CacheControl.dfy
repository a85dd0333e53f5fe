/** `splitCacheControlDirectives` of src/providers/signed-jwt.ts: a header is cut at the commas that are
    not inside a quoted string. */
module CacheControl {
  import opened Common

  datatype Mode = Outside | Inside | Escaped

  function Next(mode: Mode, c: char): Mode {
    match mode
    case Outside => if c == '"' then Inside else Outside
    case Inside => if c == '\\' then Escaped else if c == '"' then Outside else Inside
    case Escaped => Inside
  }

  /** Where a text ends: outside quotes, inside them, or after a backslash inside them. */
  function ModeAfter(s: string): Mode {
    if s == "" then Outside else Next(ModeAfter(s[..|s| - 1]), s[|s| - 1])
  }

  /** The same by a grammar: quoted strings, as in section 5.6.4 of RFC 9110, between other characters. */
  ghost predicate Closed(s: string) {
    || s == ""
    || (s[0] != '"' && Closed(s[1..]))
    || (s[0] == '"' && exists k | 0 < k < |s| :: s[k] == '"' && IsQuoted(s[1..k]) && Closed(s[k + 1..]))
  }

  /** Between its quotes: a quote or a backslash is there only after a backslash. */
  ghost predicate IsQuoted(s: string) {
    || s == ""
    || (s[0] != '"' && s[0] != '\\' && IsQuoted(s[1..]))
    || (s[0] == '\\' && |s| > 1 && IsQuoted(s[2..]))
  }

  /** A directive: its quotes are closed, and no comma is outside them. */
  predicate Whole(d: string) {
    ModeAfter(d) == Outside && Uncut(d)
  }

  predicate Uncut(d: string) {
    forall i | 0 <= i < |d| && d[i] == ',' :: ModeAfter(d[..i]) != Outside
  }

  lemma Grow(d: string, c: char)
    ensures ModeAfter(d + [c]) == Next(ModeAfter(d), c)
    ensures Uncut(d) && (c != ',' || ModeAfter(d) != Outside) ==> Uncut(d + [c])
  {
    assert (d + [c])[..|d|] == d;
    forall i | 0 <= i < |d| ensures (d + [c])[..i] == d[..i] {}
  }

  function Join(directives: seq<string>): string {
    if directives == [] then ""
    else if |directives| == 1 then directives[0]
    else directives[0] + "," + Join(directives[1..])
  }

  lemma {:induction false} JoinSnoc(directives: seq<string>, d: string)
    ensures Join(directives + [d]) == if directives == [] then d else Join(directives) + "," + d
  {
    var all := directives + [d];
    if |directives| == 1 {
      assert all[1..] == [d];
    } else if |directives| > 1 {
      JoinSnoc(directives[1..], d);
      assert all[1..] == directives[1..] + [d];
    }
  }

  /** From outside quotes, the mode depends only on what follows. */
  lemma {:induction false} ModeConcat(a: string, b: string)
    requires ModeAfter(a) == Outside
    ensures ModeAfter(a + b) == ModeAfter(b)
  {
    if b == "" {
      assert a + b == a;
    } else {
      ModeConcat(a, b[..|b| - 1]);
      assert (a + b)[..|a + b| - 1] == a + b[..|b| - 1];
    }
  }

  /** The mode from another one on. */
  function From(mode: Mode, s: string): Mode
    decreases |s|
  {
    if s == "" then mode else From(Next(mode, s[0]), s[1..])
  }

  lemma {:induction false} FromConcat(mode: Mode, a: string, b: string)
    ensures From(mode, a + b) == From(From(mode, a), b)
    decreases |a|
  {
    if a == "" {
      assert a + b == b;
    } else {
      assert (a + b)[1..] == a[1..] + b;
      FromConcat(Next(mode, a[0]), a[1..], b);
    }
  }

  lemma {:induction false} FromOutside(s: string)
    ensures From(Outside, s) == ModeAfter(s)
  {
    if s != "" {
      var last := s[|s| - 1];
      FromOutside(s[..|s| - 1]);
      assert s == s[..|s| - 1] + [last];
      FromConcat(Outside, s[..|s| - 1], [last]);
      assert From(ModeAfter(s[..|s| - 1]), [last]) == From(Next(ModeAfter(s[..|s| - 1]), last), "");
    }
  }

  /** The quotes that are open before this text are closed at `k`, and all later ones are closed. */
  ghost predicate ClosedAt(s: string, k: int) {
    0 <= k < |s| && s[k] == '"' && IsQuoted(s[..k]) && From(Outside, s[k + 1..]) == Outside
  }

  lemma LaterClosed(s: string, d: nat, k: int)
    requires s != "" && s[0] != '"' && d == (if s[0] == '\\' then 2 else 1) <= |s|
    ensures ClosedAt(s, k) <==> ClosedAt(s[d..], k - d)
  {
    if d <= k < |s| {
      assert s[..k][d..] == s[d..][..k - d];
      assert s[d..][k - d + 1..] == s[k + 1..];
    } else if 0 < k < d {
      assert |s[..k]| == 1 && s[..k][0] == s[0];
    }
  }

  /** From inside quotes on: they are closed by the first quote that ends a quoted string. */
  lemma {:induction false} ClosesIff(s: string)
    ensures From(Inside, s) == Outside <==> exists k :: ClosedAt(s, k)
    decreases |s|
  {
    if s == "" {
    } else if s[0] == '"' {
      assert s[0 + 1..] == s[1..];
      assert ClosedAt(s, 0) <==> From(Inside, s) == Outside;
      forall k | 0 < k < |s| ensures !IsQuoted(s[..k]) {
        assert s[..k][0] == '"';
      }
    } else {
      var d := if s[0] == '\\' then 2 else 1;
      if d <= |s| {
        assert d == 2 ==> s[1..][1..] == s[2..] && From(Inside, s) == From(Escaped, s[1..]);
        ClosesIff(s[d..]);
        forall k ensures ClosedAt(s, k) <==> ClosedAt(s[d..], k - d) {
          LaterClosed(s, d, k);
        }
        if k :| ClosedAt(s[d..], k) {
          assert ClosedAt(s, k + d);
        }
      }
    }
  }

  lemma ClosedString(s: string, k: int)
    requires s != "" && s[0] == '"' && 0 < k < |s| && (From(Outside, s[k + 1..]) == Outside <==> Closed(s[k + 1..]))
    ensures ClosedAt(s[1..], k - 1) <==> s[k] == '"' && IsQuoted(s[1..k]) && Closed(s[k + 1..])
  {
    assert s[1..][..k - 1] == s[1..k] && s[1..][k - 1 + 1..] == s[k + 1..];
  }

  /** A text ends outside quotes exactly if it is of the grammar. */
  lemma {:induction false} ClosedIff(s: string)
    ensures ModeAfter(s) == Outside <==> Closed(s)
    decreases |s|
  {
    FromOutside(s);
    if s != "" && s[0] != '"' {
      ClosedIff(s[1..]);
      FromOutside(s[1..]);
    } else if s != "" {
      ClosesIff(s[1..]);
      forall k | 0 < k < |s|
        ensures ClosedAt(s[1..], k - 1) <==> s[k] == '"' && IsQuoted(s[1..k]) && Closed(s[k + 1..])
      {
        ClosedIff(s[k + 1..]);
        FromOutside(s[k + 1..]);
        ClosedString(s, k);
      }
      if k :| ClosedAt(s[1..], k) {
        assert ClosedAt(s[1..], k + 1 - 1);
      }
    }
  }

  /** What is done, with its commas, ends at `start`; from there to `index` nothing is to be cut. */
  predicate Progress(value: string, done: seq<string>, start: nat, index: nat) {
    && start <= index <= |value| && Uncut(value[start..index])
    && ModeAfter(value[start..index]) == ModeAfter(value[..index])
    && (forall d <- done :: Whole(d))
    && value[..start] == if done == [] then "" else Join(done) + ","
  }

  lemma Slice(value: string, start: nat, index: nat)
    requires start <= index < |value|
    ensures value[start..index + 1] == value[start..index] + [value[index]]
    ensures value[..index + 1] == value[..start] + value[start..index] + [value[index]]
    ensures value[..index + 1] == value[..index] + [value[index]]
  {
  }

  lemma Continue(value: string, done: seq<string>, start: nat, index: nat)
    requires Progress(value, done, start, index) && index < |value|
    requires ModeAfter(value[..index]) != Outside || value[index] != ','
    ensures Progress(value, done, start, index + 1)
  {
    Slice(value, start, index);
    Grow(value[start..index], value[index]);
    Grow(value[..index], value[index]);
  }

  lemma Cut(value: string, done: seq<string>, start: nat, index: nat)
    requires Progress(value, done, start, index) && index < |value|
    requires ModeAfter(value[..index]) == Outside && value[index] == ','
    ensures Progress(value, done + [value[start..index]], index + 1, index + 1)
  {
    Slice(value, start, index);
    Grow(value[..index], value[index]);
    JoinSnoc(done, value[start..index]);
    assert Uncut("");
    hide Join, Uncut;
    assert value[index + 1..index + 1] == "";
  }

  lemma Finish(value: string, done: seq<string>, start: nat)
    requires Progress(value, done, start, |value|)
    ensures Join(done + [value[start..]]) == value && ModeAfter(value[start..]) == ModeAfter(value) &&
      Uncut(value[start..])
  {
    JoinSnoc(done, value[start..]);
    assert value[..|value|] == value && value[start..|value|] == value[start..];
    assert value == value[..start] + value[start..];
  }

  method Split(value: string) returns (directives: Option<seq<string>>)
    ensures directives.None? <==> ModeAfter(value) != Outside
    ensures directives.Some? ==> directives.value != [] && Join(directives.value) == value
    ensures directives.Some? ==> forall d <- directives.value :: Whole(d)
  {
    var done: seq<string> := [];
    var start := 0;
    var mode := Outside;
    for index := 0 to |value|
      invariant Progress(value, done, start, index) && mode == ModeAfter(value[..index])
    {
      hide Progress;
      Slice(value, start, index);
      Grow(value[..index], value[index]);
      if mode == Outside && value[index] == ',' {
        Cut(value, done, start, index);
        done := done + [value[start..index]];
        start := index + 1;
      } else {
        Continue(value, done, start, index);
      }
      mode := Next(mode, value[index]);
    }
    Finish(value, done, start);
    assert value[..|value|] == value;
    if mode != Outside {
      return None;
    }
    directives := Some(done + [value[start..]]);
  }

  /** There is only one way to cut a text so. */
  lemma {:induction false} SplitIsUnique(a: seq<string>, b: seq<string>)
    requires a != [] && b != [] && Join(a) == Join(b)
    requires (forall d <- a :: Whole(d)) && (forall d <- b :: Whole(d))
    ensures a == b
  {
    HeadIsNotLonger(a, b);
    HeadIsNotLonger(b, a);
    assert a[0] == Join(a)[..|a[0]|] == Join(b)[..|b[0]|] == b[0];
    assert (|a| == 1 <==> |Join(a)| == |a[0]|) && (|b| == 1 <==> |Join(b)| == |b[0]|);
    if |a| > 1 {
      assert Join(a)[|a[0]| + 1..] == Join(a[1..]) && Join(b)[|b[0]| + 1..] == Join(b[1..]);
      SplitIsUnique(a[1..], b[1..]);
      assert a == [a[0]] + a[1..] && b == [b[0]] + b[1..];
    }
  }

  lemma HeadIsNotLonger(a: seq<string>, b: seq<string>)
    requires a != [] && b != [] && Join(a) == Join(b) && Whole(a[0]) && Whole(b[0])
    ensures |a[0]| <= |b[0]|
  {
    CutBefore(a[0], b);
  }

  /** A longer beginning of the joined text has the comma after its first directive. */
  lemma CutBefore(d: string, b: seq<string>)
    requires b != [] && d <= Join(b) && ModeAfter(b[0]) == Outside
    ensures |d| > |b[0]| ==> !Whole(d)
  {
    if |d| > |b[0]| {
      assert |b| > 1;
      assert d[|b[0]|] == Join(b)[|b[0]|] == ',';
      assert d[..|b[0]|] == Join(b)[..|b[0]|] == b[0];
    }
  }
}

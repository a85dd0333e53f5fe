/** The fragments of an event (src/servers/feishu.ts): `fragments` frames in any order, each with the
    slice of the event that its index cuts out.  A client sorts the frames and joins the slices. */
module FeishuFragments {
  type Byte = bv8

  datatype Frame = Frame(seqId: nat, logId: nat, event: string, sum: nat, index: nat, payload: seq<Byte>)

  /** Where slice `i` of `k` begins in `n` bytes. */
  function Cut(n: nat, k: nat, i: nat): nat
    requires k > 0
  {
    (i * n) / k
  }

  function Slice(event: seq<Byte>, k: nat, i: nat): seq<Byte>
    requires i < k
  {
    CutsAscend(|event|, k, i);
    event[Cut(|event|, k, i)..Cut(|event|, k, i + 1)]
  }

  lemma Scale(k: int, d: int)
    requires k > 0
    ensures (d >= 1 ==> k * d >= k) && (d <= -1 ==> k * d <= -k)
  {
  }

  /** A quotient is the one number whose multiple is less than `k` below. */
  lemma Quotient(x: int, k: int, q: int)
    requires k > 0 && k * q <= x < k * q + k
    ensures x / k == q
  {
    var d := x / k - q;
    assert -k < k * d < k;
    Scale(k, d);
  }

  lemma DivisionAscends(a: int, b: int, k: int)
    requires a <= b && k > 0
    ensures a / k <= b / k
  {
    var d := a / k - b / k;
    assert k * d < k;
    Scale(k, d);
  }

  lemma CutsAscend(n: nat, k: nat, i: nat)
    requires i < k
    ensures Cut(n, k, i) <= Cut(n, k, i + 1) <= n
    ensures Cut(n, k, 0) == 0 && Cut(n, k, k) == n
  {
    assert i * n <= (i + 1) * n <= k * n;
    DivisionAscends(i * n, (i + 1) * n, k);
    DivisionAscends((i + 1) * n, k * n, k);
    Exact(n, k);
  }

  lemma Exact(n: nat, k: nat)
    requires k > 0
    ensures (k * n) / k == n
  {
    Quotient(k * n, k, n);
  }

  /** With no more fragments than bytes, none is empty. */
  lemma NoEmptySlice(event: seq<Byte>, k: nat, i: nat)
    requires i < k <= |event|
    ensures |Slice(event, k, i)| > 0
  {
    CutsAscend(|event|, k, i);
    NextMultiple(i, |event|);
    QuotientGrows(i * |event|, |event|, k);
  }

  lemma NextMultiple(i: int, n: int)
    ensures (i + 1) * n == i * n + n
  {
  }

  lemma QuotientGrows(x: int, n: int, k: int)
    requires 0 < k <= n
    ensures x / k < (x + n) / k
  {
    var q := x / k;
    NextMultiple(q, k);
    Quotient(x + k, k, q + 1);
    DivisionAscends(x + k, x + n, k);
  }

  /** Otherwise one is: the bound on the number of fragments is exact. */
  lemma SomeEmptySlice(event: seq<Byte>, k: nat)
    requires |event| < k
    ensures Slice(event, k, 0) == []
  {
    CutsAscend(|event|, k, 0);
  }

  predicate IsPermutation(order: seq<int>, k: int) {
    && |order| == k
    && (forall i | 0 <= i < |order| :: 0 <= order[i] < k)
    && (forall i, j | 0 <= i < j < |order| :: order[i] != order[j])
  }

  function Frames(event: seq<Byte>, id: string, order: seq<int>, sequence: nat): (frames: seq<Frame>)
    requires IsPermutation(order, |order|)
    ensures |frames| == |order|
  {
    seq(|order|, i requires 0 <= i < |order| =>
      Frame(sequence + 2 * i, sequence + 2 * i + 1, id, |order|, order[i], Slice(event, |order|, order[i])))
  }

  /** The client: insertion sort by index, then concatenation. */
  predicate Ascending(frames: seq<Frame>) {
    forall i, j | 0 <= i < j < |frames| :: frames[i].index < frames[j].index
  }

  lemma HeadIsLeast(f: Frame, frames: seq<Frame>, rest: seq<Frame>)
    requires Ascending(frames) && frames != [] && frames[0].index < f.index && Ascending(rest)
    requires forall g <- rest :: g == f || g in frames[1..]
    ensures Ascending([frames[0]] + rest)
  {
    forall i | 0 <= i < |rest| ensures rest[i].index > frames[0].index {
      assert rest[i] in rest;
      if rest[i] != f {
        var j :| 0 <= j < |frames[1..]| && frames[1..][j] == rest[i];
        assert frames[j + 1] == rest[i];
      }
    }
  }

  function Insert(f: Frame, frames: seq<Frame>): (r: seq<Frame>)
    requires Ascending(frames) && forall g <- frames :: g.index != f.index
    ensures Ascending(r) && |r| == |frames| + 1 && forall g :: g in r <==> g == f || g in frames
  {
    if frames == [] || f.index < frames[0].index then [f] + frames
    else
      var rest := Insert(f, frames[1..]);
      assert frames == [frames[0]] + frames[1..];
      HeadIsLeast(f, frames, rest);
      [frames[0]] + rest
  }

  function Sort(frames: seq<Frame>): (r: seq<Frame>)
    requires forall i, j | 0 <= i < j < |frames| :: frames[i].index != frames[j].index
    ensures Ascending(r) && |r| == |frames| && forall g :: g in r <==> g in frames
  {
    if frames == [] then []
    else
      assert frames == [frames[0]] + frames[1..];
      Insert(frames[0], Sort(frames[1..]))
  }

  function Join(frames: seq<Frame>): seq<Byte> {
    if frames == [] then [] else Join(frames[..|frames| - 1]) + frames[|frames| - 1].payload
  }

  lemma {:induction false} AtLeast(frames: seq<Frame>, i: nat)
    requires Ascending(frames) && i < |frames|
    ensures frames[i].index >= i
  {
    if i > 0 {
      AtLeast(frames, i - 1);
    }
  }

  lemma {:induction false} AtMost(frames: seq<Frame>, i: nat)
    requires Ascending(frames) && i < |frames| && forall f <- frames :: f.index < |frames|
    ensures frames[i].index <= i
    decreases |frames| - i
  {
    if i + 1 < |frames| {
      AtMost(frames, i + 1);
    }
  }

  lemma {:induction false} JoinIsPrefix(event: seq<Byte>, frames: seq<Frame>, k: nat, m: nat)
    requires m <= |frames| == k && k > 0
    requires forall i | 0 <= i < k :: frames[i].payload == Slice(event, k, i)
    ensures Cut(|event|, k, m) <= |event| && Join(frames[..m]) == event[..Cut(|event|, k, m)]
  {
    if m == 0 {
      CutsAscend(|event|, k, 0);
    } else {
      JoinIsPrefix(event, frames, k, m - 1);
      CutsAscend(|event|, k, m - 1);
      assert frames[..m][..m - 1] == frames[..m - 1];
    }
  }

  /** The slices partition the event: from the frames in any order, the client has the event back. */
  lemma Reassembles(event: seq<Byte>, id: string, order: seq<int>, sequence: nat)
    requires IsPermutation(order, |order|) && order != []
    ensures var frames := Frames(event, id, order, sequence);
      && (forall i, j | 0 <= i < j < |frames| :: frames[i].index != frames[j].index)
      && Join(Sort(frames)) == event
  {
    var frames := Frames(event, id, order, sequence);
    assert forall i, j | 0 <= i < j < |frames| :: frames[i].index == order[i] != order[j] == frames[j].index;
    SortedInPlace(event, frames, Sort(frames), |order|);
  }

  lemma SortedInPlace(event: seq<Byte>, frames: seq<Frame>, sorted: seq<Frame>, k: nat)
    requires |sorted| == k > 0 && Ascending(sorted) && forall g <- sorted :: g in frames
    requires forall f <- frames :: f.index < k && f.payload == Slice(event, k, f.index)
    ensures Join(sorted) == event
  {
    forall i | 0 <= i < k ensures sorted[i].payload == Slice(event, k, i) {
      assert sorted[i] in frames;
      AtLeast(sorted, i);
      AtMost(sorted, i);
    }
    JoinIsPrefix(event, sorted, k, k);
    CutsAscend(|event|, k, 0);
    assert sorted[..k] == sorted;
  }

  /** The source's test of `fragmentOrder`: the right length, no element twice, all in range. */
  lemma DistinctBySize(order: seq<int>)
    requires |set x | x in order| == |order|
    ensures forall i, j | 0 <= i < j < |order| :: order[i] != order[j]
  {
    if order != [] {
      var rest := order[..|order| - 1];
      var last := order[|order| - 1];
      assert order == rest + [last];
      SizeAtMost(rest);
      assert (set x | x in order) == (set x | x in rest) + {last};
      DistinctBySize(rest);
    }
  }

  lemma SizeAtMost(order: seq<int>)
    ensures |set x | x in order| <= |order|
  {
    if order != [] {
      var rest := order[..|order| - 1];
      assert order == rest + [order[|order| - 1]];
      SizeAtMost(rest);
      assert (set x | x in order) == (set x | x in rest) + {order[|order| - 1]};
    }
  }

  lemma {:induction false} SizeOfDistinct(order: seq<int>)
    requires forall i, j | 0 <= i < j < |order| :: order[i] != order[j]
    ensures |set x | x in order| == |order|
  {
    if order != [] {
      var rest := order[..|order| - 1];
      assert order == rest + [order[|order| - 1]];
      SizeOfDistinct(rest);
      assert (set x | x in order) == (set x | x in rest) + {order[|order| - 1]};
    }
  }
}

/** The lease of the provider readiness lock (src/openclaw/provider-readiness-lock.ts): how its owner
    renews it under a clock that may go back, and how a contender tells that it was renewed. */
module ReadinessLease {
  const MAX_SAFE_INTEGER := 0x1F_FFFF_FFFF_FFFF

  /** The variables of `renew`, and the time stamps in the owner's directory and in the reservation. */
  datatype Lease = Lease(clockRegressed: bool, lastObserved: int, lastRenewed: int, owned: int, reservation: int)

  /** One renewal: the reading of the clock, and which of the two writes succeed. */
  datatype Renewal = Renewal(now: int, owned: bool, reservation: bool)

  function Acquired(createdAt: int): Lease {
    Lease(false, createdAt, createdAt, createdAt, createdAt)
  }

  function Regressed(l: Lease, now: int): bool {
    now < l.lastObserved || (l.clockRegressed && now < l.lastRenewed)
  }

  function Stamp(l: Lease, now: int): int {
    if Regressed(l, now) then l.lastRenewed + 1 else now
  }

  predicate Safe(stamp: int) {
    -MAX_SAFE_INTEGER <= stamp <= MAX_SAFE_INTEGER
  }

  predicate Succeeds(l: Lease, r: Renewal) {
    Safe(Stamp(l, r.now)) && r.owned && r.reservation
  }

  function After(l: Lease, r: Renewal): Lease {
    var observed := l.(clockRegressed := Regressed(l, r.now), lastObserved := r.now);
    var stamp := Stamp(l, r.now);
    if !Safe(stamp) || !r.owned then observed
    else if !r.reservation then observed.(owned := stamp)
    else observed.(owned := stamp, reservation := stamp, lastRenewed := stamp)
  }

  function AfterAll(l: Lease, renewals: seq<Renewal>): Lease
    decreases |renewals|
  {
    if renewals == [] then l else AfterAll(After(l, renewals[0]), renewals[1..])
  }

  /** The reservation has the last renewal, and a clock that is not known to have gone back is past it. */
  predicate Valid(l: Lease) {
    l.reservation == l.lastRenewed && (l.clockRegressed || l.lastObserved >= l.lastRenewed)
  }

  class Owner {
    var clockRegressed: bool
    var lastObserved: int
    var lastRenewed: int
    var owned: int
    var reservation: int

    function State(): Lease
      reads this
    {
      Lease(clockRegressed, lastObserved, lastRenewed, owned, reservation)
    }

    constructor (createdAt: int)
      ensures State() == Acquired(createdAt)
    {
      clockRegressed := false;
      lastObserved, lastRenewed, owned, reservation := createdAt, createdAt, createdAt, createdAt;
    }

    /** `renew`. */
    method Renew(now: int, ownedWritten: bool, reservationWritten: bool) returns (ok: bool)
      modifies this
      ensures State() == After(old(State()), Renewal(now, ownedWritten, reservationWritten))
      ensures ok == Succeeds(old(State()), Renewal(now, ownedWritten, reservationWritten))
    {
      if now < lastObserved {
        clockRegressed := true;
      } else if clockRegressed && now >= lastRenewed {
        clockRegressed := false;
      }
      lastObserved := now;
      var renewedAt := if clockRegressed then lastRenewed + 1 else now;
      if !Safe(renewedAt) {
        return false;
      }
      if !ownedWritten {
        return false;
      }
      owned := renewedAt;
      if !reservationWritten {
        return false;
      }
      reservation := renewedAt;
      lastRenewed := renewedAt;
      ok := true;
    }
  }

  /** A renewal that succeeds never goes back, and goes on whenever the clock is behind the last one. */
  lemma RenewalKeeps(l: Lease, r: Renewal)
    requires Valid(l)
    ensures Valid(After(l, r)) && After(l, r).reservation >= l.reservation
    ensures Succeeds(l, r) && r.now < l.lastRenewed ==> After(l, r).reservation == l.reservation + 1
    ensures Succeeds(l, r) && r.now < l.lastObserved ==> After(l, r).reservation == l.reservation + 1
    ensures Succeeds(l, r) && r.now >= l.lastObserved && r.now >= l.lastRenewed ==> After(l, r).reservation == r.now
    ensures !(r.owned && r.reservation) ==> After(l, r).reservation == l.reservation
    ensures Succeeds(l, r) <==>
      r.owned && r.reservation && -0x1F_FFFF_FFFF_FFFF <= Stamp(l, r.now) <= 0x1F_FFFF_FFFF_FFFF
    ensures After(l, r).lastObserved == r.now
  {
  }

  lemma {:induction false} NeverDecreases(l: Lease, renewals: seq<Renewal>)
    requires Valid(l)
    ensures Valid(AfterAll(l, renewals)) && AfterAll(l, renewals).reservation >= l.reservation
    decreases |renewals|
  {
    if renewals != [] {
      RenewalKeeps(l, renewals[0]);
      NeverDecreases(After(l, renewals[0]), renewals[1..]);
    }
  }

  lemma {:induction false} AfterConcat(l: Lease, a: seq<Renewal>, b: seq<Renewal>)
    ensures AfterAll(l, a + b) == AfterAll(AfterAll(l, a), b)
    decreases |a|
  {
    if a == [] {
      assert a + b == b;
    } else {
      assert (a + b)[1..] == a[1..] + b;
      AfterConcat(After(l, a[0]), a[1..], b);
    }
  }

  // ---------------------------------------------------------------------------------------------
  // The contender

  /** What the contender knows of the owner's process at some moment. */
  datatype Process = Process(alive: bool, mismatch: bool)

  /** `isLockOwnerActive`, for the reservation's stamp. */
  predicate Active(p: Process, createdAt: int, stamp: int, now: int, lease: nat) {
    var age := now - if createdAt > stamp then createdAt else stamp;
    p.alive && !p.mismatch && 0 - lease <= age <= lease
  }

  function Later(a: int, b: int): int {
    if a > b then a else b
  }

  /** The owner may be alive, and its stamp is too old or too far ahead. */
  predicate Suspects(p: Process, createdAt: int, stamp: int, now: int, lease: nat) {
    p.alive && !p.mismatch && (now > Later(createdAt, stamp) + lease || now + lease < Later(createdAt, stamp))
  }

  datatype Confirmation = Changed | Renewed | Unchanged

  /** What is read after the pause: no record, or one with a token and a stamp. */
  datatype Reading = NoRecord | Record(token: int, stamp: int)

  /** `confirmObservedOwner`. */
  function Confirm(createdAt: int, token: int, observed: int, before: Process, now: int,
                   again: Reading, after: Process, later: int, lease: nat): (r: Confirmation)
    ensures r == Changed <==>
      Suspects(before, createdAt, observed, now, lease) && again.Record? && again.token != token
    ensures r == Renewed <==>
      && Suspects(before, createdAt, observed, now, lease) && again.Record? && again.token == token
      && (again.stamp == observed ==>
            after.alive && !after.mismatch && later <= Later(createdAt, again.stamp) + lease &&
              Later(createdAt, again.stamp) <= later + lease)
  {
    if !(before.alive && !before.mismatch && !Active(before, createdAt, observed, now, lease)) then Unchanged
    else if again.NoRecord? then Unchanged
    else if again.token != token then Changed
    else if again.stamp != observed || Active(after, createdAt, again.stamp, later, lease) then Renewed
    else Unchanged
  }

  /** A contender that suspects a live owner, and reads the reservation again after any number of
      renewals, one of which succeeded with the clock behind, finds it renewed: whatever its own clock
      says then. */
  lemma RenewalIsSeen(l: Lease, earlier: seq<Renewal>, r: Renewal, rest: seq<Renewal>,
                      createdAt: int, token: int, before: Process, now: int, after: Process, later: int, lease: nat)
    requires Valid(l) && Succeeds(AfterAll(l, earlier), r) && r.now < AfterAll(l, earlier).lastRenewed
    requires before.alive && !before.mismatch && !Active(before, createdAt, l.reservation, now, lease)
    ensures var again := Record(token, AfterAll(l, earlier + [r] + rest).reservation);
      Confirm(createdAt, token, l.reservation, before, now, again, after, later, lease) == Renewed
  {
    var l1 := AfterAll(l, earlier);
    NeverDecreases(l, earlier);
    RenewalKeeps(l1, r);
    NeverDecreases(After(l1, r), rest);
    assert ([r] + rest)[1..] == rest;
    AfterConcat(l, earlier, [r] + rest);
    assert earlier + [r] + rest == earlier + ([r] + rest);
  }

  /** With one clock for both: while renewals succeed, the owner is never taken for inactive within the
      lease of the last one, unless its clock was behind then. */
  lemma FreshIsActive(l: Lease, r: Renewal, createdAt: int, p: Process, now: int, lease: nat)
    requires Valid(l) && Succeeds(l, r) && !Regressed(l, r.now) && createdAt <= r.now
    requires p.alive && !p.mismatch
    ensures Active(p, createdAt, After(l, r).reservation, now, lease) <==> r.now - lease <= now <= r.now + lease
  {
  }

  // ---------------------------------------------------------------------------------------------
  // The stamp in the owner's own directory

  /** The owner's stamp is about to go back: the write succeeds, and the stamp to be written, in its two
      clock cases, is below the one that is there. */
  predicate SetsBack(l: Lease, r: Renewal) {
    && r.owned
    && if r.now < l.lastObserved || (l.clockRegressed && r.now < l.lastRenewed)
       then Safe(l.lastRenewed + 1) && l.lastRenewed + 1 < l.owned
       else Safe(r.now) && r.now < l.owned
  }

  /** Of any lease whatever: exactly then it goes back. */
  lemma DecreasesIff(l: Lease, r: Renewal)
    ensures After(l, r).owned < l.owned <==> SetsBack(l, r)
  {
  }

  /** Over a whole sequence the owner's stamp is never less than at an earlier moment. */
  ghost predicate NeverBack(l: Lease, renewals: seq<Renewal>) {
    forall i, j | 0 <= i <= j <= |renewals| ::
      AfterAll(l, renewals[..i]).owned <= AfterAll(l, renewals[..j]).owned
  }

  /** No renewal of the sequence meets the guard. */
  ghost predicate Steady(l: Lease, renewals: seq<Renewal>) {
    forall i | 0 <= i < |renewals| :: !SetsBack(AfterAll(l, renewals[..i]), renewals[i])
  }

  lemma AfterNext(l: Lease, renewals: seq<Renewal>, i: nat)
    requires i < |renewals|
    ensures AfterAll(l, renewals[..i + 1]) == After(AfterAll(l, renewals[..i]), renewals[i])
  {
    assert renewals[..i + 1] == renewals[..i] + [renewals[i]];
    AfterConcat(l, renewals[..i], [renewals[i]]);
    var m := AfterAll(l, renewals[..i]);
    assert AfterAll(m, [renewals[i]]) == AfterAll(After(m, renewals[i]), []);
  }

  lemma {:induction false} SteadyAscends(l: Lease, renewals: seq<Renewal>, i: nat, j: nat)
    requires Steady(l, renewals) && i <= j <= |renewals|
    ensures AfterAll(l, renewals[..i]).owned <= AfterAll(l, renewals[..j]).owned
    decreases j
  {
    if i < j {
      SteadyAscends(l, renewals, i, j - 1);
      AfterNext(l, renewals, j - 1);
      DecreasesIff(AfterAll(l, renewals[..j - 1]), renewals[j - 1]);
    }
  }

  /** From any lease, over every sequence of clock readings and failures: the owner's stamp never goes
      back exactly when no renewal meets the guard. */
  lemma NeverBackIff(l: Lease, renewals: seq<Renewal>)
    ensures NeverBack(l, renewals) <==> Steady(l, renewals)
  {
    if Steady(l, renewals) {
      forall i, j | 0 <= i <= j <= |renewals|
        ensures AfterAll(l, renewals[..i]).owned <= AfterAll(l, renewals[..j]).owned
      {
        SteadyAscends(l, renewals, i, j);
      }
    }
    if NeverBack(l, renewals) {
      forall i | 0 <= i < |renewals| ensures !SetsBack(AfterAll(l, renewals[..i]), renewals[i]) {
        assert AfterAll(l, renewals[..i]).owned <= AfterAll(l, renewals[..i + 1]).owned;
        AfterNext(l, renewals, i);
        DecreasesIff(AfterAll(l, renewals[..i]), renewals[i]);
      }
    }
  }

  /** A renewal that writes the owner's directory but not the reservation. */
  predicate Half(l: Lease, r: Renewal) {
    r.owned && !r.reservation && Safe(Stamp(l, r.now))
  }

  /** The cause: without a half renewal there is no way back. */
  lemma {:induction false} WithoutHalves(l: Lease, renewals: seq<Renewal>, k: nat)
    requires Valid(l) && l.owned == l.lastRenewed && k <= |renewals|
    requires forall i | 0 <= i < |renewals| :: !Half(AfterAll(l, renewals[..i]), renewals[i])
    ensures var m := AfterAll(l, renewals[..k]);
      Valid(m) && m.owned == m.lastRenewed && (k < |renewals| ==> !SetsBack(m, renewals[k]))
  {
    if k > 0 {
      WithoutHalves(l, renewals, k - 1);
      AfterNext(l, renewals, k - 1);
    } else {
      assert renewals[..0] == [];
    }
  }

  /** Two runs that do go back: at once after a half renewal, and after one more that wrote nothing. */
  lemma OwnedMayDecrease()
    ensures var half := Renewal(1000, true, false);
      && !NeverBack(Acquired(100), [half, Renewal(500, true, true)])
      && !NeverBack(Acquired(100), [half, Renewal(2000, false, false), Renewal(1500, true, true)])
  {
    var half, none := Renewal(1000, true, false), Renewal(2000, false, false);
    var short, long := [half, Renewal(500, true, true)], [half, none, Renewal(1500, true, true)];
    AfterNext(Acquired(100), short, 0);
    AfterNext(Acquired(100), long, 0);
    AfterNext(Acquired(100), long, 1);
    assert short[..0] == [] && long[..0] == [];
    assert SetsBack(AfterAll(Acquired(100), short[..1]), short[1]);
    assert SetsBack(AfterAll(Acquired(100), long[..2]), long[2]);
    NeverBackIff(Acquired(100), short);
    NeverBackIff(Acquired(100), long);
  }
}

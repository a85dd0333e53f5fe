/** The key resolver of src/providers/signed-jwt.ts: one key fetch at a time, a cooldown after a fetch
    that fails or takes too long, a bounded table of unknown key ids, and the key set of the current
    fetch only.  Times are the readings of a clock that does not go back. */
module JwtKeys {
  import opened Common

  const MAX_NEGATIVE_KEY_IDS := 128
  const MAX_REMOTE_KEY_SET_SIZE := 128

  datatype KeySet = KeySet(expiresAt: int, ids: seq<string>)

  /** `fetchInFlight`; `retryAt` is set by the first timeout. */
  datatype Flight = Flight(generation: nat, retryAt: Option<int>)

  /** What happens to fetches, in order. */
  datatype Event =
    | Started(generation: nat, at: int)
    | Failed(generation: nat, at: int)      // while it was the current one
    | TimedOut(generation: nat, at: int)    // for the first time, while it was the current one
    | Succeeded(generation: nat, at: int)   // while it was the current one

  /** No fetch starts within the cooldown of an earlier failure, and none within that of an earlier first
      timeout unless the very fetch that timed out has succeeded in between. */
  ghost predicate Patient(log: seq<Event>, cooldown: nat) {
    && (forall i, j | 0 <= i < j < |log| && log[i].Failed? && log[j].Started? ::
          log[j].at >= log[i].at + cooldown)
    && (forall i, j | 0 <= i < j < |log| && log[i].TimedOut? && log[j].Started? ::
          log[j].at >= log[i].at + cooldown || Saved(log[i + 1..j], log[i].generation))
  }

  /** This fetch has succeeded. */
  ghost predicate Saved(log: seq<Event>, generation: nat) {
    exists k | 0 <= k < |log| :: log[k].Succeeded? && log[k].generation == generation
  }

  /** Times do not go back. */
  ghost predicate Ascending(log: seq<Event>) {
    forall i, j | 0 <= i <= j < |log| :: log[i].at <= log[j].at
  }

  /** Nothing happens to a fetch once a later one has started, or after it has failed or succeeded. */
  ghost predicate CurrentOnly(log: seq<Event>) {
    && (forall i, j | 0 <= i < j < |log| && log[i].Started? ::
          log[j].generation > log[i].generation || (!log[j].Started? && log[j].generation == log[i].generation))
    && (forall i, j | 0 <= i < j < |log| && (log[i].Failed? || log[i].Succeeded?) ::
          log[j].generation > log[i].generation)
  }

  /** What may start no fetch now, at the time of the last event. */
  ghost predicate Holds(log: seq<Event>, i: nat, cooldown: nat)
    requires i < |log|
  {
    && (log[i].Failed? || (log[i].TimedOut? && !Saved(log[i + 1..], log[i].generation)))
    && log[|log| - 1].at < log[i].at + cooldown
  }

  ghost predicate HeldBack(log: seq<Event>, until: int, cooldown: nat) {
    forall i | 0 <= i < |log| && Holds(log, i, cooldown) :: until >= log[i].at + cooldown
  }

  /** A fetch that has started and has neither failed nor succeeded. */
  ghost predicate Open(log: seq<Event>, generation: nat) {
    && (exists s | 0 <= s < |log| :: log[s].Started? && log[s].generation == generation)
    && (forall k | 0 <= k < |log| && log[k].generation == generation :: !log[k].Failed? && !log[k].Succeeded?)
  }

  lemma SavedGrows(log: seq<Event>, i: nat, e: Event)
    requires i < |log|
    ensures Saved((log + [e])[i + 1..], log[i].generation) <==>
      Saved(log[i + 1..], log[i].generation) || (e.Succeeded? && e.generation == log[i].generation)
  {
    var g, before, after := log[i].generation, log[i + 1..], (log + [e])[i + 1..];
    assert after == before + [e];
    assert forall k | 0 <= k < |before| :: after[k] == before[k];
    if Saved(before, g) {
      var k :| 0 <= k < |before| && before[k].Succeeded? && before[k].generation == g;
      assert after[k].Succeeded? && after[k].generation == g;
    } else if e.Succeeded? && e.generation == g {
      assert after[|before|] == e;
    }
  }

  /** Patience is decided when a fetch starts. */
  lemma PatientGrows(log: seq<Event>, cooldown: nat, e: Event)
    requires Patient(log, cooldown)
    requires e.Started? ==> forall i | 0 <= i < |log| && (log[i].Failed? || log[i].TimedOut?) ::
      e.at >= log[i].at + cooldown || (log[i].TimedOut? && Saved(log[i + 1..], log[i].generation))
    ensures Patient(log + [e], cooldown)
  {
    var after := log + [e];
    forall i, j | 0 <= i < j < |after| && after[i].TimedOut? && after[j].Started?
      ensures after[j].at >= after[i].at + cooldown || Saved(after[i + 1..j], after[i].generation) {
      assert after[i + 1..j] == log[i + 1..j];
      if j == |log| {
        assert log[i + 1..j] == log[i + 1..];
      }
    }
  }

  /** Any event but a success leaves what holds back, or adds itself. */
  lemma HeldBackGrows(log: seq<Event>, cooldown: nat, until: int, later: int, e: Event)
    requires HeldBack(log, until, cooldown) && until <= later && Ascending(log + [e]) && !e.Succeeded?
    requires e.Failed? || e.TimedOut? ==> later >= e.at + cooldown
    ensures HeldBack(log + [e], later, cooldown)
  {
    var after := log + [e];
    forall i | 0 <= i < |after| && Holds(after, i, cooldown) ensures later >= after[i].at + cooldown {
      if i < |log| {
        SavedGrows(log, i, e);
        assert after[|log| - 1].at <= after[|log|].at;
        assert Holds(log, i, cooldown);
      }
    }
  }

  /** After the success of the current fetch nothing holds back: an older failure or timeout was over
      when the fetch started, and its own timeout is lifted. */
  lemma SuccessFrees(log: seq<Event>, cooldown: nat, until: int, e: Event, i: nat)
    requires Patient(log, cooldown) && CurrentOnly(log) && Ascending(log + [e]) && i < |log|
    requires e.Succeeded? && Open(log, e.generation) && forall x <- log :: x.generation <= e.generation
    ensures !Holds(log + [e], i, cooldown)
  {
    var after := log + [e];
    SavedGrows(log, i, e);
    var s :| 0 <= s < |log| && log[s].Started? && log[s].generation == e.generation;
    assert log[i] in log && after[s].at <= after[|log|].at;
    if i < s && log[i].TimedOut? && Saved(log[i + 1..s], log[i].generation) {
      var k :| 0 <= k < |log[i + 1..s]| && log[i + 1..s][k].Succeeded? &&
        log[i + 1..s][k].generation == log[i].generation;
      assert log[i + 1..][k] == log[i + 1..s][k];
    }
  }

  /** All of it: what is true of the fetches so far, up to `generation`. */
  ghost predicate InOrder(log: seq<Event>, cooldown: nat, until: int, generation: nat) {
    && Patient(log, cooldown) && HeldBack(log, until, cooldown) && CurrentOnly(log) && Ascending(log)
    && forall e <- log :: e.generation <= generation
  }

  lemma Append(log: seq<Event>, cooldown: nat, until: int, generation: nat, e: Event, later: int)
    requires InOrder(log, cooldown, until, generation) && (log != [] ==> log[|log| - 1].at <= e.at)
    requires if e.Started? then until <= e.at && until == later && e.generation == generation + 1
             else e.generation == generation && Open(log, generation)
    requires e.Failed? || e.TimedOut? ==> until <= later && e.at + cooldown <= later
    ensures InOrder(log + [e], cooldown, later, e.generation)
    ensures e.Started? || e.TimedOut? ==> Open(log + [e], e.generation)
  {
    var after := log + [e];
    assert Ascending(after);
    if e.Started? {
      forall i | 0 <= i < |log| && (log[i].Failed? || log[i].TimedOut?)
        ensures e.at >= log[i].at + cooldown || (log[i].TimedOut? && Saved(log[i + 1..], log[i].generation))
      {
        assert !Holds(log, i, cooldown) || until >= log[i].at + cooldown;
      }
    }
    PatientGrows(log, cooldown, e);
    CurrentGrows(log, generation, e);
    if e.Succeeded? {
      forall i | 0 <= i < |after| ensures !Holds(after, i, cooldown) {
        if i < |log| {
          SuccessFrees(log, cooldown, until, e, i);
        }
      }
    } else {
      HeldBackGrows(log, cooldown, until, later, e);
    }
    OpenGrows(log, generation, e);
  }

  lemma CurrentGrows(log: seq<Event>, generation: nat, e: Event)
    requires CurrentOnly(log) && forall x <- log :: x.generation <= generation
    requires if e.Started? then e.generation == generation + 1 else e.generation == generation && Open(log, generation)
    ensures CurrentOnly(log + [e])
  {
    forall i | 0 <= i < |log| ensures log[i].generation <= generation {
      assert log[i] in log;
    }
  }

  lemma OpenGrows(log: seq<Event>, generation: nat, e: Event)
    requires forall x <- log :: x.generation <= generation
    requires if e.Started? then e.generation == generation + 1 else e.generation == generation && Open(log, generation)
    ensures e.Started? || e.TimedOut? ==> Open(log + [e], e.generation)
  {
    var after := log + [e];
    assert after[|log|] == e;
    forall k | 0 <= k < |log| ensures after[k] == log[k] && log[k].generation <= generation {
      assert log[k] in log;
    }
    if e.TimedOut? {
      var s :| 0 <= s < |log| && log[s].Started? && log[s].generation == generation;
      assert after[s].Started?;
    }
  }

  // ---------------------------------------------------------------------------------------------

  /** `validateRemoteJwtKeySet`, for the expiry, if it is finite, and the key ids of the values, where
      there are any. */
  method ValidateKeySet(expiresAt: Option<int>, ids: seq<Option<string>>) returns (keyIds: Option<seq<string>>)
    ensures keyIds.Some? <==>
      && expiresAt.Some?
      && 1 <= |ids| <= 128 && (forall id <- ids :: id.Some? && id.value != "")
      && (forall i, j | 0 <= i < j < |ids| :: ids[i] != ids[j])
    ensures keyIds.Some? ==> |keyIds.value| == |ids| && forall i | 0 <= i < |ids| :: ids[i] == Some(keyIds.value[i])
  {
    if expiresAt.None? || |ids| == 0 || |ids| > MAX_REMOTE_KEY_SET_SIZE {
      return None;
    }
    var seen: seq<string> := [];
    for i := 0 to |ids|
      invariant |seen| == i && forall j | 0 <= j < i :: ids[j] == Some(seen[j]) && seen[j] != ""
      invariant forall j, k | 0 <= j < k < i :: seen[j] != seen[k]
    {
      if ids[i].None? || ids[i].value == "" {
        assert ids[i] in ids;
        return None;
      }
      if ids[i].value in seen {
        var j :| 0 <= j < i && seen[j] == ids[i].value;
        assert ids[j] == ids[i];
        return None;
      }
      seen := seen + [ids[i].value];
    }
    keyIds := Some(seen);
  }

  class Resolver {
    const cooldown: nat
    var clock: int
    var cached: Option<KeySet>
    var fetchInFlight: Option<Flight>
    var fetchGeneration: nat
    var fetchFailureCooldownUntil: int
    var running: set<nat>                 // fetches that are not settled
    var retryAts: map<nat, int>           // `retryAt` of the fetches that have timed out
    var negativeKeyIds: seq<(string, int)>
    ghost var log: seq<Event>

    ghost predicate Orderly()
      reads `log, `fetchFailureCooldownUntil, `fetchGeneration
    {
      InOrder(log, cooldown, fetchFailureCooldownUntil, fetchGeneration)
    }

    ghost predicate Current()
      reads `fetchInFlight, `fetchGeneration, `fetchFailureCooldownUntil, `clock, `running, `retryAts, `log
    {
      && (forall g <- running :: g <= fetchGeneration)
      && (forall g <- retryAts :: g <= fetchGeneration && retryAts[g] <= clock + cooldown)
      && (log != [] ==> log[|log| - 1].at <= clock)
      && match fetchInFlight
         case None => true
         case Some(f) =>
           && f.generation == fetchGeneration && f.generation in running && Open(log, f.generation)
           && (f.retryAt == if f.generation in retryAts then Some(retryAts[f.generation]) else None)
           && (if f.retryAt.Some? then fetchFailureCooldownUntil == f.retryAt.value
             else fetchFailureCooldownUntil <= clock)
    }

    predicate Bounded()
      reads `negativeKeyIds
    {
      && |negativeKeyIds| <= MAX_NEGATIVE_KEY_IDS
      && (forall i, j | 0 <= i < j < |negativeKeyIds| :: negativeKeyIds[i].0 != negativeKeyIds[j].0)
      && (forall n <- negativeKeyIds :: n.0 != "")
    }

    ghost predicate Valid()
      reads this
    {
      Orderly() && Current() && Bounded()
    }

    constructor (cooldown: nat, clock: nat)
      ensures Valid() && log == [] && cached == None && this.cooldown == cooldown
    {
      this.cooldown, this.clock := cooldown, clock;
      cached, fetchInFlight, fetchGeneration, fetchFailureCooldownUntil := None, None, 0, 0;
      running, retryAts, negativeKeyIds, log := {}, map[], [], [];
    }

    method Now() returns (t: int)
      modifies `clock
      ensures t == clock >= old(clock)
    {
      t :| t >= clock;
      clock := t;
    }

    /** `fetchKeys` up to its first await: the fetch that is joined, or `None` when it is refused with
        the error of the last one. */
    method FetchKeys() returns (joined: Option<nat>)
      requires Orderly() && Current()
      modifies `clock, `fetchInFlight, `fetchGeneration, `running, `log
      ensures Orderly() && Current() && clock >= old(clock)
      ensures joined.Some? ==> fetchInFlight.Some? && fetchInFlight.value.generation == joined.value
      ensures
        if
          && old(fetchInFlight).Some?
          && (old(fetchInFlight).value.retryAt.None? || old(fetchInFlight).value.retryAt.value > clock)
        then
          joined == Some(old(fetchInFlight).value.generation) && fetchInFlight == old(fetchInFlight) && log == old(log)
        else if fetchFailureCooldownUntil > clock then
          joined == None && fetchInFlight == None && log == old(log)
        else
          && joined == Some(old(fetchGeneration) + 1) && fetchInFlight == Some(Flight(old(fetchGeneration) + 1, None))
          && log == old(log) + [Started(old(fetchGeneration) + 1, clock)]
      ensures fetchGeneration == old(fetchGeneration) + if log == old(log) then 0 else 1
    {
      hide InOrder, Patient, HeldBack, CurrentOnly, Ascending, Open;
      var currentTime := Now();
      if fetchInFlight.Some? && fetchInFlight.value.retryAt.Some? && fetchInFlight.value.retryAt.value <= currentTime {
        fetchInFlight := None;
      }
      if fetchInFlight == None {
        if fetchFailureCooldownUntil > currentTime {
          return None;
        }
        StartFetch();
      }
      joined := Some(fetchInFlight.value.generation);
    }

    method StartFetch()
      requires Orderly() && Current() && fetchInFlight == None && fetchFailureCooldownUntil <= clock
      modifies `fetchInFlight, `fetchGeneration, `running, `log
      ensures Orderly() && Current() && fetchInFlight == Some(Flight(fetchGeneration, None))
      ensures fetchGeneration == old(fetchGeneration) + 1 && log == old(log) + [Started(fetchGeneration, clock)]
    {
      hide InOrder, Patient, HeldBack, CurrentOnly, Ascending, Open;
      Append(log, cooldown, fetchFailureCooldownUntil, fetchGeneration, Started(fetchGeneration + 1, clock),
        fetchFailureCooldownUntil);
      fetchGeneration := fetchGeneration + 1;
      running := running + {fetchGeneration};
      log := log + [Started(fetchGeneration, clock)];
      fetchInFlight := Some(Flight(fetchGeneration, None));
    }

    predicate IsCurrent(generation: nat)
      reads `fetchInFlight
    {
      fetchInFlight.Some? && fetchInFlight.value.generation == generation
    }

    /** A fetch is settled: with a valid key set, or with an error.  Only the current one counts. */
    method Settle(generation: nat, keySet: Option<KeySet>)
      requires Valid() && generation in running
      modifies this
      ensures Valid() && clock >= old(clock)
      ensures old(IsCurrent(generation)) ==>
        && fetchInFlight == None
        && log == old(log) + [if keySet.Some? then Succeeded(generation, clock) else Failed(generation, clock)]
      ensures !old(IsCurrent(generation)) ==>
        log == old(log) && cached == old(cached) && negativeKeyIds == old(negativeKeyIds) &&
          fetchInFlight == old(fetchInFlight) && fetchFailureCooldownUntil == old(fetchFailureCooldownUntil)
      ensures old(IsCurrent(generation)) ==>
        fetchFailureCooldownUntil == if keySet.Some? then 0 else clock + cooldown
      ensures fetchGeneration == old(fetchGeneration) && running == old(running) - {generation}
      ensures keySet == None ==> cached == old(cached) && negativeKeyIds == old(negativeKeyIds)
      ensures keySet.Some? && old(IsCurrent(generation)) ==>
        && cached == (if keySet.value.expiresAt > clock then keySet else None)
        && (forall n :: n in negativeKeyIds <==> n in old(negativeKeyIds) && n.0 !in keySet.value.ids)
    {
      hide InOrder, Patient, HeldBack, CurrentOnly, Ascending, Open;
      if IsCurrent(generation) {
        var t := Now();
        if keySet.Some? {
          cached := if keySet.value.expiresAt > t then keySet else None;
          RemoveKnown(keySet.value.ids);
          Succeed(generation, t);
        } else {
          Fail(generation, t);
        }
        fetchInFlight := None;
      }
      running := running - {generation};
    }

    method Succeed(generation: nat, t: int)
      requires Orderly() && generation == fetchGeneration && Open(log, generation)
      requires log != [] ==> log[|log| - 1].at <= t
      modifies `fetchFailureCooldownUntil, `log
      ensures Orderly() && log == old(log) + [Succeeded(generation, t)] && fetchFailureCooldownUntil == 0
    {
      Append(log, cooldown, fetchFailureCooldownUntil, fetchGeneration, Succeeded(generation, t), 0);
      hide InOrder, Patient, HeldBack, CurrentOnly, Ascending, Open;
      fetchFailureCooldownUntil := 0;
      log := log + [Succeeded(generation, t)];
    }

    method Fail(generation: nat, t: int)
      requires Orderly() && t == clock && generation == fetchGeneration && Open(log, generation)
      requires log != [] ==> log[|log| - 1].at <= t
      requires fetchFailureCooldownUntil <= t + cooldown
      modifies `fetchFailureCooldownUntil, `log
      ensures Orderly() && log == old(log) + [Failed(generation, t)] && fetchFailureCooldownUntil == t + cooldown
    {
      Append(log, cooldown, fetchFailureCooldownUntil, fetchGeneration, Failed(generation, t), t + cooldown);
      hide InOrder, Patient, HeldBack, CurrentOnly, Ascending, Open;
      fetchFailureCooldownUntil := t + cooldown;
      log := log + [Failed(generation, t)];
    }

    /** `fetchKeys` loses patience with the fetch that it has joined. */
    method TimeOut(generation: nat)
      requires Orderly() && Current() && generation in running
      modifies `clock, `retryAts, `fetchInFlight, `fetchFailureCooldownUntil, `log
      ensures Orderly() && Current() && clock >= old(clock)
      ensures generation in old(retryAts) || !old(IsCurrent(generation)) ==> log == old(log)
      ensures retryAts == if generation in old(retryAts) then old(retryAts)
        else old(retryAts)[generation := clock + cooldown]
      ensures fetchGeneration == old(fetchGeneration) && (fetchInFlight.Some? <==> old(fetchInFlight).Some?)
      ensures generation !in old(retryAts) && old(IsCurrent(generation)) ==>
        log == old(log) + [TimedOut(generation, clock)]
      ensures if old(IsCurrent(generation)) then
          && fetchFailureCooldownUntil == retryAts[generation]
          && fetchInFlight == Some(Flight(generation, Some(retryAts[generation])))
        else fetchFailureCooldownUntil == old(fetchFailureCooldownUntil) && fetchInFlight == old(fetchInFlight)
    {
      hide InOrder, Patient, HeldBack, CurrentOnly, Ascending, Open;
      var first := generation !in retryAts;
      if first {
        var t := Now();
        retryAts := retryAts[generation := t + cooldown];
      }
      if IsCurrent(generation) {
        if first {
          Append(log, cooldown, fetchFailureCooldownUntil, fetchGeneration, TimedOut(generation, clock),
            clock + cooldown);
          log := log + [TimedOut(generation, clock)];
        }
        fetchFailureCooldownUntil := retryAts[generation];
        fetchInFlight := Some(Flight(generation, Some(retryAts[generation])));
      }
    }

    /** The key ids of a fetched set are not unknown any more. */
    method RemoveKnown(ids: seq<string>)
      requires Bounded()
      modifies `negativeKeyIds
      ensures Bounded()
      ensures forall n :: n in negativeKeyIds <==> n in old(negativeKeyIds) && n.0 !in ids
    {
      for i := 0 to |ids|
        invariant Bounded()
        invariant forall n :: n in negativeKeyIds <==> n in old(negativeKeyIds) && n.0 !in ids[..i]
      {
        Remove(ids[i]);
        assert ids[..i + 1] == ids[..i] + [ids[i]];
      }
      assert ids[..|ids|] == ids;
    }

    method Remove(kid: string)
      requires Bounded()
      modifies `negativeKeyIds
      ensures Bounded() && |negativeKeyIds| <= |old(negativeKeyIds)|
      ensures |negativeKeyIds| == |old(negativeKeyIds)| ==> negativeKeyIds == old(negativeKeyIds)
      ensures forall n :: n in negativeKeyIds <==> n in old(negativeKeyIds) && n.0 != kid
    {
      if k :| 0 <= k < |negativeKeyIds| && negativeKeyIds[k].0 == kid {
        negativeKeyIds := negativeKeyIds[..k] + negativeKeyIds[k + 1..];
      }
    }

    /** `Map.set`: in its place, if the key is there. */
    method Enter(kid: string, expiresAt: int)
      requires Bounded() && kid != "" && |negativeKeyIds| < MAX_NEGATIVE_KEY_IDS
      modifies `negativeKeyIds
      ensures Bounded()
      ensures forall n :: n in negativeKeyIds <==> n == (kid, expiresAt) || (n in old(negativeKeyIds) && n.0 != kid)
    {
      if k :| 0 <= k < |negativeKeyIds| && negativeKeyIds[k].0 == kid {
        ghost var before := negativeKeyIds;
        negativeKeyIds := negativeKeyIds[k := (kid, expiresAt)];
        assert negativeKeyIds[k] == (kid, expiresAt);
        forall n | n in before && n.0 != kid ensures n in negativeKeyIds {
          var j :| 0 <= j < |before| && before[j] == n;
          assert negativeKeyIds[j] == n;
        }
      } else {
        negativeKeyIds := negativeKeyIds + [(kid, expiresAt)];
      }
    }

    /** `rejectUnknownKey`: expired entries go, then the oldest if the table is full, and the key is entered. */
    method RejectUnknownKey(kid: string, expiresAt: int)
      requires Bounded() && kid != ""
      modifies `negativeKeyIds, `clock
      ensures Bounded() && (kid, expiresAt) in negativeKeyIds && clock >= old(clock)
      ensures forall n <- negativeKeyIds :: n == (kid, expiresAt) || (n in old(negativeKeyIds) && n.0 != kid)
      ensures forall n <- negativeKeyIds :: n == (kid, expiresAt) || n.1 > old(clock)
      ensures forall i | 0 <= i < |old(negativeKeyIds)| &&
          (i > 0 || |old(negativeKeyIds)| < 128 || exists n <- old(negativeKeyIds) :: n.1 <= old(clock)) ::
        old(negativeKeyIds)[i].1 > clock && old(negativeKeyIds)[i].0 != kid ==> old(negativeKeyIds)[i] in negativeKeyIds
    {
      var entries := negativeKeyIds;
      for i := 0 to |entries|
        invariant Bounded() && |negativeKeyIds| <= |old(negativeKeyIds)| && clock >= old(clock)
        invariant forall n <- negativeKeyIds :: n in entries
        invariant forall n <- entries :: n.1 > clock ==> n in negativeKeyIds
        invariant |negativeKeyIds| == |entries| ==> negativeKeyIds == entries
        invariant forall j | 0 <= j < i :: entries[j].1 <= old(clock) ==> entries[j] !in negativeKeyIds
      {
        var t := Now();
        if entries[i].1 <= t {
          assert forall n <- entries :: n.0 == entries[i].0 ==> n == entries[i];
          Remove(entries[i].0);
        }
      }
      if |negativeKeyIds| >= MAX_NEGATIVE_KEY_IDS {
        negativeKeyIds := negativeKeyIds[1..];
      }
      Enter(kid, expiresAt);
    }

    method Do(step: Step)
      requires Valid()
      modifies this
      ensures Valid() && old(log) <= log
    {
      hide InOrder, Patient, HeldBack, CurrentOnly, Ascending, Open;
      match step
      case Fetching =>
        var _ := FetchKeys();
      case Settling(generation, keySet) =>
        if generation in running {
          Settle(generation, keySet);
        }
      case TimingOut(generation) =>
        if generation in running {
          TimeOut(generation);
        }
      case Rejecting(kid, expiresAt) =>
        if kid != "" {
          RejectUnknownKey(kid, expiresAt);
        }
    }

    /** Every interleaving of callers, fetches and timeouts: fetches are patient, only the current one
        counts, and the table stays small. */
    method Run(steps: seq<Step>)
      requires Valid()
      modifies this
      ensures Valid() && old(log) <= log
      ensures Patient(log, cooldown) && Ascending(log) && CurrentOnly(log) && |negativeKeyIds| <= 128
    {
      for i := 0 to |steps|
        invariant Valid() && old(log) <= log
      {
        Do(steps[i]);
      }
    }
  }

  datatype Step =
    | Fetching
    | Settling(generation: nat, keySet: Option<KeySet>)
    | TimingOut(generation: nat)
    | Rejecting(kid: string, expiresAt: int)
}

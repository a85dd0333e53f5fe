/** The lazy provider of src/providers/registry.ts: the real provider is made on first use, and cleanup
    must wait for the operations that were admitted before it.  The code between two awaits runs
    alone, so each such stretch is one method. */
module LazyProvider {
  import opened Common

  type Op = nat
  type Watch = nat
  type Attempt = nat

  /** What happens at the provider's edge, in order. */
  datatype Event =
    | Admitted(op: Op)          // an operation is taken on
    | FactoryCalled             // a provider is being made
    | Handed(op: Op)            // the provider is given the operation
    | Failed(op: Op)            // the operation has failed without that
    | WatchStarted(w: Watch)    // the provider is asked to watch
    | Closing                   // cleanup of the lazy provider begins
    | CleanupBegun              // provider.beginCleanup
    | Cleaned                   // provider.cleanup

  /** What may follow what. */
  ghost predicate Allowed(before: seq<Event>, e: Event) {
    match e
    case Admitted(op) => Closing !in before && Admitted(op) !in before
    case FactoryCalled => Closing !in before
    case Handed(op) => Admitted(op) in before && Handed(op) !in before && CleanupBegun !in before
    case Failed(op) => Admitted(op) in before && CleanupBegun !in before
    case WatchStarted(w) => Closing !in before
    case Closing => Closing !in before
    case CleanupBegun => Closing in before && CleanupBegun !in before && Settled(before)
    case Cleaned => CleanupBegun in before && Cleaned !in before
  }

  /** Every admitted operation has been handed over or has failed. */
  ghost predicate Settled(log: seq<Event>) {
    forall op: Op :: Admitted(op) in log ==> Handed(op) in log || Failed(op) in log
  }

  ghost predicate Orderly(log: seq<Event>) {
    forall i | 0 <= i < |log| :: Allowed(log[..i], log[i])
  }

  lemma Snoc(log: seq<Event>, e: Event)
    requires Orderly(log) && Allowed(log, e)
    ensures Orderly(log + [e])
  {
    forall i | 0 <= i < |log| + 1 ensures Allowed((log + [e])[..i], (log + [e])[i]) {
      if i < |log| {
        assert (log + [e])[..i] == log[..i];
      } else {
        assert (log + [e])[..i] == log;
      }
    }
  }

  /** In an orderly log `provider.beginCleanup` runs once at most, after every admitted operation has
      been handed over or has failed, and nothing is admitted, made, handed over or watched after it. */
  lemma CleanupIsLast(log: seq<Event>, i: nat, j: nat)
    requires Orderly(log) && i < |log| && log[i] == CleanupBegun && j < |log|
    ensures j != i ==> log[j] != CleanupBegun
    ensures log[j].Admitted? || log[j].FactoryCalled? || log[j].Handed? || log[j].WatchStarted? ==> j < i
    ensures log[j].Cleaned? ==> i < j
    ensures log[j].Admitted? ==> exists k | 0 <= k < i :: log[k] == Handed(log[j].op) || log[k] == Failed(log[j].op)
  {
    assert Allowed(log[..i], log[i]) && Allowed(log[..j], log[j]);
    if i < j {
      assert log[..j][i] == CleanupBegun;
      assert forall e <- log[..i] :: e in log[..j];
    } else if j < i {
      assert log[..i][j] == log[j];
      assert forall e <- log[..j] :: e in log[..i];
    }
  }

  class Lazy {
    var cleanedUp: bool
    var providerCleanupBegun: bool
    var instance: bool                     // `#providerInstance`
    var attempts: nat                      // factory calls; the last one is `#providerPromise`, unless it failed
    var outcomes: map<Attempt, bool>       // the settled ones
    var inFlight: set<Op>
    var waiting: map<Op, Attempt>          // operations whose dispatch barrier is not reached
    var operations: nat
    var active: set<Watch>
    var aborted: set<Watch>
    var created: set<Watch>                // watches that nobody has asked for a value
    var pausing: map<Watch, Attempt>       // watches that wait for the provider
    var watches: nat
    var cleaning: bool                     // `#cleanupPromise`
    var cleaned: bool
    ghost var log: seq<Event>

    ghost predicate Told()
      reads this
    {
      && Orderly(log)
      && (cleanedUp <==> Closing in log) && (providerCleanupBegun <==> CleanupBegun in log)
      && (forall op: Op :: Tells(op)) && (cleaned <==> Cleaned in log)
    }

    ghost predicate Tells(op: Op)
      reads `log, `waiting, `operations, `inFlight
    {
      && (Admitted(op) in log <==> op < operations)
      && (op in waiting <==> Admitted(op) in log && Handed(op) !in log && Failed(op) !in log)
      && (op in waiting ==> op in inFlight)
      && (Handed(op) in log || Failed(op) in log ==> Admitted(op) in log)
    }

    /** `beginCleanup` of the provider has run exactly when it could. */
    predicate Ready()
      reads `cleanedUp, `providerCleanupBegun, `instance, `waiting
    {
      providerCleanupBegun <==> cleanedUp && instance && waiting == map[]
    }

    /** Every watch that could still start is aborted by cleanup. */
    predicate Stopped()
      reads `cleanedUp, `pausing, `created, `active, `aborted, `watches
    {
      && (forall w <- pausing :: w in active) && (forall w <- created :: w in active && w !in pausing)
      && (forall w <- active :: w < watches)
      && (cleanedUp ==> active <= aborted)
    }

    /** One factory call at a time, and none after one that has succeeded. */
    ghost predicate Made()
      reads `instance, `attempts, `outcomes, `waiting, `pausing
    {
      && (instance <==> attempts > 0 && attempts - 1 in outcomes && outcomes[attempts - 1])
      && (forall a | 0 <= a < attempts - 1 :: a in outcomes && !outcomes[a])
      && (forall a <- outcomes :: a < attempts)
      && (forall op <- waiting :: waiting[op] < attempts) && (forall w <- pausing :: pausing[w] < attempts)
    }

    ghost predicate Valid()
      reads this
    {
      Told() && Ready() && Stopped() && Made()
    }

    constructor ()
      ensures Valid() && log == [] && !cleanedUp
    {
      cleanedUp, providerCleanupBegun, instance, cleaning, cleaned := false, false, false, false, false;
      attempts, operations, watches := 0, 0, 0;
      outcomes, waiting, pausing := map[], map[], map[];
      inFlight, active, aborted, created := {}, {}, {}, {};
      log := [];
    }

    /** An event that says nothing of operations. */
    ghost method Emit(e: Event)
      requires Told() && Allowed(log, e) && !e.Admitted? && !e.Handed? && !e.Failed?
      modifies `log
      ensures log == old(log) + [e] && Orderly(log)
      ensures forall op: Op :: Tells(op)
    {
      Snoc(log, e);
      log := log + [e];
      forall op: Op ensures Tells(op) {
        assert old(Tells(op));
      }
    }

    /** `#provider`: the factory is called when there is no promise of a provider, or it failed. */
    method Provider() returns (attempt: Attempt)
      requires Told() && Made() && !cleanedUp
      modifies `attempts, `log
      ensures Told() && Made() && attempt == attempts - 1 >= 0
      ensures log == old(log) + if attempts == old(attempts) then [] else [FactoryCalled]
      ensures attempt in outcomes ==> outcomes[attempt]
      ensures log != old(log) && old(attempts) > 0 ==>
        old(attempts) - 1 in outcomes && !outcomes[old(attempts) - 1]
    {
      if attempts == 0 || (attempts - 1 in outcomes && !outcomes[attempts - 1]) {
        attempts := attempts + 1;
        Emit(FactoryCalled);
      }
      attempt := attempts - 1;
    }

    /** `#beginProviderCleanup`. */
    method BeginProviderCleanup()
      requires Told() && cleanedUp && waiting == map[]
      modifies `providerCleanupBegun, `log
      ensures Told() && providerCleanupBegun
      ensures log == old(log) + if old(providerCleanupBegun) then [] else [CleanupBegun]
    {
      if providerCleanupBegun {
        return;
      }
      forall op: Op | Admitted(op) in log ensures Handed(op) in log || Failed(op) in log {
        assert Tells(op);
      }
      Emit(CleanupBegun);
      providerCleanupBegun := true;
    }

    /** `#beginProviderCleanupIfReady`. */
    method BeginProviderCleanupIfReady()
      requires Told() && (providerCleanupBegun ==> Ready())
      modifies `providerCleanupBegun, `log
      ensures Told() && Ready()
      ensures log == old(log) || log == old(log) + [CleanupBegun]
    {
      hide Allowed, Orderly;
      assert forall op <- waiting :: Tells(op);
      if !cleanedUp || !instance || exists op <- inFlight :: op in waiting {
        return;
      }
      assert waiting == map[];
      BeginProviderCleanup();
    }

    /** `#runOperation` up to its first await. */
    method RunOperation(signalAborted: bool) returns (op: Option<Op>)
      requires Valid()
      modifies this
      ensures Valid() && old(log) <= log
      ensures op.Some? <==> !old(cleanedUp) && !signalAborted
      ensures op.Some? ==> Admitted(op.value) in log && Admitted(op.value) !in old(log) && op.value in waiting
      ensures op.Some? && waiting[op.value] in outcomes ==> outcomes[waiting[op.value]]
      ensures op.None? ==> log == old(log)
    {
      if cleanedUp || signalAborted {
        return None;
      }
      op := Some(operations);
      assert Tells(operations);
      var attempt := Provider();
      Admit(attempt);
    }

    method Admit(attempt: Attempt)
      requires Told() && !cleanedUp && Admitted(operations) !in log
      modifies `log, `operations, `inFlight, `waiting
      ensures Told() && log == old(log) + [Admitted(old(operations))]
      ensures operations == old(operations) + 1 && waiting == old(waiting)[old(operations) := attempt]
    {
      var op := operations;
      assert Tells(op);
      Snoc(log, Admitted(op));
      log := log + [Admitted(op)];
      operations, inFlight, waiting := operations + 1, inFlight + {op}, waiting[op := attempt];
      forall o: Op ensures Tells(o) {
        assert old(Tells(o));
      }
    }

    /** The dispatch barrier of an operation is reached: the provider has it, or it has failed. */
    method Dispatch(op: Op, handed: bool)
      requires Told() && op in waiting && !providerCleanupBegun
      modifies `log, `waiting
      ensures Told() && waiting == old(waiting) - {op}
      ensures log == old(log) + [if handed then Handed(op) else Failed(op)]
    {
      assert Tells(op);
      var e := if handed then Handed(op) else Failed(op);
      Snoc(log, e);
      log := log + [e];
      waiting := waiting - {op};
      forall o: Op ensures Tells(o) {
        assert old(Tells(o));
      }
    }

    /** An operation goes on when the promise of the provider is settled. */
    method Resume(op: Op, signalAborted: bool)
      requires Valid()
      modifies this
      ensures Valid() && old(log) <= log
      ensures op in old(waiting) && old(waiting)[op] in outcomes ==> op !in waiting
      ensures op in old(waiting) && old(waiting)[op] in outcomes && outcomes[old(waiting)[op]] && !signalAborted ==>
        Handed(op) in log
      ensures Handed(op) in log && Handed(op) !in old(log) ==>
        !signalAborted && op in old(waiting) && old(waiting)[op] in outcomes && outcomes[old(waiting)[op]]
      ensures outcomes == old(outcomes)
    {
      hide Allowed, Orderly, Settled;
      if op !in waiting || waiting[op] !in outcomes {
        return;
      }
      Dispatch(op, outcomes[waiting[op]] && !signalAborted);
      BeginProviderCleanupIfReady();
    }

    /** The result of an operation is there. */
    method Complete(op: Op)
      requires Valid()
      modifies `inFlight
      ensures Valid()
      ensures inFlight == if op in waiting then old(inFlight) else old(inFlight) - {op}
    {
      if op !in waiting {
        inFlight := inFlight - {op};
        forall o: Op ensures Tells(o) {
          assert old(Tells(o));
        }
      }
    }

    /** The factory's promise is settled, and with it `#providerInstance` or `#providerPromise`. */
    method FactorySettles(ok: bool)
      requires Valid()
      modifies this
      ensures Valid() && old(log) <= log && attempts == old(attempts)
      ensures outcomes == if attempts > 0 && attempts - 1 !in old(outcomes) then old(outcomes)[attempts - 1 := ok]
        else old(outcomes)
    {
      if attempts > 0 && attempts - 1 !in outcomes {
        outcomes := outcomes[attempts - 1 := ok];
        if ok {
          instance := true;
          BeginProviderCleanupIfReady();
        }
      }
    }

    method Close()
      requires Told() && Stopped() && !cleanedUp
      modifies `cleanedUp, `aborted, `log
      ensures Told() && Stopped() && cleanedUp && log == old(log) + [Closing]
    {
      Emit(Closing);
      cleanedUp := true;
      aborted := aborted + active;
    }

    method BeginCleanup()
      requires Valid()
      modifies `cleanedUp, `aborted, `log, `providerCleanupBegun
      ensures Valid() && old(log) <= log && cleanedUp && old(active) <= aborted
    {
      hide Allowed, Orderly, Settled;
      if !cleanedUp {
        Close();
        BeginProviderCleanupIfReady();
      }
    }

    /** `cleanup` up to its first await. */
    method Cleanup()
      requires Valid()
      modifies this
      ensures Valid() && old(log) <= log && cleanedUp && cleaning && old(active) <= aborted
    {
      BeginCleanup();
      cleaning := true;
    }

    /** `#cleanupProvider` after the dispatch barriers of all operations and watches: `provider.cleanup`. */
    method CleanProvider()
      requires Valid()
      modifies `providerCleanupBegun, `cleaned, `log
      ensures Valid() && old(log) <= log
      ensures Cleaned in log <==>
        Cleaned in old(log) || (cleaning && cleanedUp && instance && waiting == map[] && pausing == map[] &&
          created == {})
    {
      hide Allowed, Orderly, Settled;
      if cleaning && cleanedUp && instance && !cleaned {
        if waiting == map[] && pausing == map[] && created == {} {
          BeginProviderCleanup();
          MarkCleaned();
        }
      }
    }

    method MarkCleaned()
      requires Told() && providerCleanupBegun && !cleaned
      modifies `cleaned, `log
      ensures Told() && log == old(log) + [Cleaned]
    {
      Emit(Cleaned);
      cleaned := true;
    }

    method StartWatch(signalAborted: bool) returns (w: Option<Watch>)
      requires Valid()
      modifies `watches, `active, `created, `aborted
      ensures Valid() && (w.Some? <==> !cleanedUp)
      ensures w.Some? ==>
        w.value !in old(active) && active == old(active) + {w.value} && created == old(created) + {w.value}
      ensures aborted == old(aborted) + if w.Some? && signalAborted then {w.value} else {}
    {
      if cleanedUp {
        return None;
      }
      w := Some(watches);
      active, created := active + {watches}, created + {watches};
      if signalAborted {
        aborted := aborted + {watches};
      }
      watches := watches + 1;
    }

    /** The first value of a watch is asked for. */
    method NextOfWatch(w: Watch)
      requires Valid()
      modifies this
      ensures Valid() && old(log) <= log && w !in created
      ensures w in old(created) ==> (w in pausing <==> w !in aborted) && (w in active <==> w in pausing)
      ensures w in old(created) && w in pausing && pausing[w] in outcomes ==> outcomes[pausing[w]]
    {
      if w !in created {
        return;
      }
      created := created - {w};
      if w in aborted {
        active := active - {w};
        return;
      }
      var attempt := Provider();
      pausing := pausing[w := attempt];
    }

    /** A watch goes on when the promise of the provider is settled. */
    method ResumeWatch(w: Watch, supported: bool)
      requires Valid()
      modifies this
      ensures Valid()
      ensures WatchStarted(w) in log && WatchStarted(w) !in old(log) ==> !cleanedUp && w !in aborted
      ensures
        && w in old(pausing) && old(pausing)[w] in outcomes && outcomes[old(pausing)[w]]
        && w !in aborted && supported
        ==>
        log == old(log) + [WatchStarted(w)]
      ensures log == old(log) || log == old(log) + [WatchStarted(w)]
      ensures w in old(pausing) && old(pausing)[w] in outcomes ==>
        w !in pausing && (w in active <==> outcomes[old(pausing)[w]] && w !in aborted && supported)
      ensures outcomes == old(outcomes) && aborted == old(aborted)
    {
      if w !in pausing || pausing[w] !in outcomes {
        return;
      }
      var ok := outcomes[pausing[w]] && w !in aborted && supported;
      pausing := pausing - {w};
      if ok {
        Emit(WatchStarted(w));
      } else {
        active := active - {w};
      }
    }

    /** A watch is aborted: by its context, or because it is closed. */
    method AbortWatch(w: Watch)
      requires Valid()
      modifies `aborted
      ensures Valid() && aborted == old(aborted) + {w}
    {
      aborted := aborted + {w};
    }

    /** A watch has ended, or one that never began is closed. */
    method FinishWatch(w: Watch)
      requires Valid()
      modifies `active, `created
      ensures Valid() && created == old(created) - {w}
      ensures active == if w in pausing then old(active) else old(active) - {w}
    {
      created := created - {w};
      if w !in pausing {
        active := active - {w};
      }
    }

    method Do(step: Step)
      requires Valid()
      modifies this
      ensures Valid() && old(log) <= log
    {
      match step
      case Operate(signalAborted) =>
        var _ := RunOperation(signalAborted);
      case GoOn(op, signalAborted) => Resume(op, signalAborted);
      case Settle(op) => Complete(op);
      case Factory(ok) => FactorySettles(ok);
      case Begin => BeginCleanup();
      case Clean => Cleanup();
      case Dispatched => CleanProvider();
      case NewWatch(signalAborted) =>
        var _ := StartWatch(signalAborted);
      case FirstValue(w) => NextOfWatch(w);
      case WatchGoesOn(w, supported) => ResumeWatch(w, supported);
      case Abort(w) => AbortWatch(w);
      case Finish(w) => FinishWatch(w);
    }

    /** Every interleaving: the log stays orderly. */
    method Run(steps: seq<Step>)
      requires Valid()
      modifies this
      ensures Valid() && old(log) <= log && Orderly(log)
    {
      for i := 0 to |steps|
        invariant Valid() && old(log) <= log
      {
        Do(steps[i]);
      }
    }
  }

  datatype Step =
    | Operate(signalAborted: bool) | GoOn(op: Op, signalAborted: bool) | Settle(op: Op) | Factory(ok: bool)
    | Begin | Clean | Dispatched
    | NewWatch(signalAborted: bool) | FirstValue(w: Watch) | WatchGoesOn(w: Watch, supported: bool)
    | Abort(w: Watch) | Finish(w: Watch)
}

/** What holds in every run of the mutation claim, of any number of attempts that fail and crash anywhere. */
module MutationClaimRuns {
  import opened Common
  import opened MutationClaim

  // ---------------------------------------------------------------------------------------------
  // Mutual exclusion over whole runs

  /** Runs in which every unlink of a "duplicate" spares what other live attempts rely on. */
  ghost predicate Sparing(run: seq<State>) {
    run != [] && run[0] == INIT && forall i | 0 <= i < |run| - 1 :: SparingStep(run[i], run[i + 1])
  }

  ghost predicate SparingStep(s: State, t: State) {
    exists p, a :: Enabled(s, p, a) && Spares(s, p, a) && t == Exec(s, p, a)
  }

  lemma {:induction false} RunKeeps(run: seq<State>)
    requires Sparing(run)
    ensures Inv(run[|run| - 1])
  {
    if |run| == 1 {
      InitHolds();
    } else {
      var before := run[..|run| - 1];
      assert Sparing(before);
      RunKeeps(before);
      var s := run[|run| - 2];
      assert SparingStep(run[|run| - 2], run[|run| - 1]);
      var p, a :| Enabled(s, p, a) && Spares(s, p, a) && run[|run| - 1] == Exec(s, p, a);
      StepKeeps(s, p, a);
    }
  }

  lemma InitHolds()
    ensures Inv(INIT)
  {
  }

  /** What holds in every run, also where an unlink of a "duplicate" takes what others rely on. */
  lemma {:induction false} EveryRunKeeps(run: seq<State>)
    requires Run(run)
    ensures RunInv(run[|run| - 1])
  {
    if |run| == 1 {
      InitHolds();
    } else {
      var before := run[..|run| - 1];
      assert Run(before);
      EveryRunKeeps(before);
      assert Step(run[|run| - 2], run[|run| - 1]);
      var p, a :| Enabled(run[|run| - 2], p, a) && run[|run| - 1] == Exec(run[|run| - 2], p, a);
      RunStepKeeps(run[|run| - 2], p, a);
    }
  }

  /** Between the rename or link that installs a claim and the rename that releases it, at most one
      live attempt is there, and the root names its file. */
  lemma MutualExclusion(run: seq<State>, p: Id)
    requires Sparing(run)
    requires var s := run[|run| - 1]; Alive(s, p) && Holding(s.procs[p])
    ensures var s := run[|run| - 1];
      && Names(s.names, Root, p)
      && (forall q | Alive(s, q) && Holding(s.procs[q]) :: q == p)
  {
    RunKeeps(run);
    HoldingIsExclusive(run[|run| - 1], p);
  }

  lemma DuplicateUnlinks(s: State, p: Id)
    requires Inv(s) && Enabled(s, p, Go) && s.procs[p].pc.DroppingDuplicate? && s.procs[p].path in s.names
    ensures s.procs[p].path.Next?
    ensures Exec(s, p, Go) == s.(names := s.names - {s.procs[p].path}, procs := s.procs[p := Restart(s.procs[p])])
  {
    ProcOf(s, p);
    hide Inv, NamesInv, LinksInv;
  }

  /** The unlink of a "duplicate" keeps the invariant and every link of every other live attempt exactly if no
      other live attempt relies on that path. */
  lemma DuplicateKeepsIff(s: State, p: Id)
    requires Inv(s) && Enabled(s, p, Go) && s.procs[p].pc.DroppingDuplicate? && s.procs[p].path in s.names
    ensures var t := Exec(s, p, Go);
      Spares(s, p, Go) <==>
        Inv(t) && forall r, n | Alive(s, r) && r != p :: Names(t.names, n, r) == Names(s.names, n, r)
  {
    hide RunInv;
    var path := s.procs[p].path;
    var t := Exec(s, p, Go);
    DuplicateUnlinks(s, p);
    hide Inv, Exec;
    if Spares(s, p, Go) {
      StepKeeps(s, p, Go);
      forall r, n | Alive(s, r) && r != p ensures Names(t.names, n, r) == Names(s.names, n, r) {
        assert !Needs(s, r, path);
      }
    } else {
      var r :| Alive(s, r) && r != p && Needs(s, r, path);
      BreaksWhatIsNeeded(s, p, r);
    }
  }

  lemma BreaksWhatIsNeeded(s: State, p: Id, r: Id)
    requires Inv(s) && Enabled(s, p, Go) && s.procs[p].pc.DroppingDuplicate? && s.procs[p].path in s.names
    requires Alive(s, r) && r != p && Needs(s, r, s.procs[p].path)
    ensures var t := Exec(s, p, Go); !Inv(t) || exists n :: Names(t.names, n, r) != Names(s.names, n, r)
  {
    var path, pr := s.procs[p].path, s.procs[r];
    var t := Exec(s, p, Go);
    DuplicateUnlinks(s, p);
    hide Inv, Exec, Enabled;
    if Names(s.names, path, r) {
      assert Names(t.names, path, r) != Names(s.names, path, r);
    } else if pr.pc.DroppingAlias? && pr.pc.entry == path {
      EntryIsNeeded(t, r);
    } else {
      ChainIsNeeded(s.names, s.died, path, r, pr);
      NoInvWithout(t, r);
    }
  }

  lemma NoInvWithout(t: State, r: Id)
    requires Alive(t, r) && !ProcInv(t.names, t.died, r, t.procs[r])
    ensures !Inv(t)
  {
  }

  lemma EntryIsNeeded(t: State, r: Id)
    requires Alive(t, r) && t.procs[r].pc.DroppingAlias? && t.procs[r].pc.entry.Next? && t.procs[r].pc.entry !in t.names
    ensures !Inv(t)
  {
    assert !Removable(t, r, t.procs[r].pc.entry);
  }

  lemma ChainIsNeeded(names: map<Name, Id>, died: map<Id, nat>, path: Name, r: Id, pr: Proc)
    requires (Walking(pr.pc) || AtTail(pr.pc)) && pr.stale != [] && Names(names, Root, pr.stale[0].id)
    requires path.Next? && path in StalePaths(pr)
    ensures !ProcInv(names - {path}, died, r, pr)
  {
    var names' := names - {path};
    assert Names(names', Root, pr.stale[0].id);
    var j :| 0 <= j < |pr.stale| && pr.stale[j].path == path;
    assert !Names(names', pr.stale[j].path, pr.stale[j].id);
    assert !Frozen(names', pr.stale);
  }

  /** No step of anyone else takes a name away from a live attempt's file, or gives it one, unless the attempt's
      number is one of those that the other sweeps, or the other unlinks that very path as a "duplicate". */
  lemma LiveLinksAreSafe(run: seq<State>, p: Id, q: Id, a: Action, n: Name)
    requires Sparing(run)
    requires var s := run[|run| - 1]; Alive(s, p) && p != q && Enabled(s, q, a) && !Unlinks(s, q, a, n)
    requires var s := run[|run| - 1];
      q in s.procs && p in s.numbers ==> NumberOf(s.numbers, p) !in StaleNumbers(s.numbers, s.procs[q])
    ensures var s := run[|run| - 1]; Names(Exec(s, q, a).names, n, p) == Names(s.names, n, p)
  {
    RunKeeps(run);
    LinkIsSafe(run[|run| - 1], p, q, a, n);
  }

  /** The step is the unlink of `n` as a "duplicate". */
  predicate Unlinks(s: State, q: Id, a: Action, n: Name)
    requires Enabled(s, q, a)
  {
    a == Go && s.procs[q].pc.DroppingDuplicate? && s.procs[q].path == n
  }

  lemma LinkIsSafe(s: State, p: Id, q: Id, a: Action, n: Name)
    requires Inv(s) && Alive(s, p) && p != q && Enabled(s, q, a) && !Unlinks(s, q, a, n)
    requires q in s.procs && p in s.numbers ==> NumberOf(s.numbers, p) !in StaleNumbers(s.numbers, s.procs[q])
    ensures Names(Exec(s, q, a).names, n, p) == Names(s.names, n, p)
  {
    hide Inv, Operate, StaleNumbers, Exec;
    if !Names(s.names, n, p) {
      if Names(Exec(s, q, a).names, n, p) {
        OthersGainNothing(s, q, a, p, n);
      }
    } else if a != Go {
      OtherActionSpares(s, p, q, a, n);
    } else if s.procs[q].pc.DroppingAlias? {
      SweepSpares(s, p, q, n);
    } else if s.procs[q].pc.DroppingDuplicate? && s.procs[q].path in s.names {
      DuplicateUnlinks(s, q);
    } else {
      OperationSpares(s, p, q, n);
    }
  }

  lemma OtherActionSpares(s: State, p: Id, q: Id, a: Action, n: Name)
    requires Inv(s) && p != q && Enabled(s, q, a) && a != Go && Names(s.names, n, p)
    ensures Names(Exec(s, q, a).names, n, p)
  {
    if a.Create? {
      CreationIs(s, q, a.number);
      assert NamesInv(s.names, s.died);
    } else {
      NamesStay(s, q, a);
    }
    hide Inv, Exec, Enabled;
  }

  lemma NamesStay(s: State, q: Id, a: Action)
    requires Enabled(s, q, a) && a != Go && !a.Create?
    ensures Exec(s, q, a).names == s.names
  {
    hide InUse, Thrown, Picked;
  }

  lemma SweepSpares(s: State, p: Id, q: Id, n: Name)
    requires Inv(s) && Alive(s, p) && p != q && Enabled(s, q, Go) && s.procs[q].pc.DroppingAlias?
    requires p in s.numbers ==> NumberOf(s.numbers, p) !in StaleNumbers(s.numbers, s.procs[q])
    requires Names(s.names, n, p)
    ensures Names(Exec(s, q, Go).names, n, p)
  {
    hide RunInv;
    var entry := s.procs[q].pc.entry;
    NextToSweep(s, q);
    hide Inv, StaleNumbers, OperateWalk, OperateTail, OperateRollback;
    assert Exec(s, q, Go).names in {s.names, s.names - {entry}};
  }

  lemma NextToSweep(s: State, q: Id)
    requires Inv(s) && Alive(s, q) && s.procs[q].pc.DroppingAlias?
    ensures var entry := s.procs[q].pc.entry;
      && Removable(s, q, entry)
      && (entry in s.names && entry.Candidate? ==> s.names[entry] == entry.owner)
  {
    assert Removable(s, q, s.procs[q].pc.entry);
    assert NamesInv(s.names, s.died);
    hide ProcInv, Removable;
  }

  lemma OperationSpares(s: State, p: Id, q: Id, n: Name)
    requires Inv(s) && Alive(s, p) && p != q && Enabled(s, q, Go) && !s.procs[q].pc.DroppingAlias?
    requires s.procs[q].pc.DroppingDuplicate? ==> s.procs[q].path !in s.names
    requires Names(s.names, n, p)
    ensures Names(Exec(s, q, Go).names, n, p)
  {
    hide RunInv;
    ProcOf(s, q);
    hide Inv, ProcInv, NamesInv, Operate;
    OperateKeeps(s.names, s.numbers, s.died, q, s.procs[q]);
  }

  /** The sweep takes a live attempt's link exactly if the attempt has a swept number; it is a candidate then. */
  lemma SweepTakesIff(run: seq<State>, p: Id, q: Id, n: Name)
    requires Sparing(run)
    requires var s := run[|run| - 1];
      Alive(s, p) && p != q && Names(s.names, n, p) && Enabled(s, q, Pick(n)) && s.procs[q].pc.Sweeping?
    ensures var s, t := run[|run| - 1], Exec(run[|run| - 1], q, Pick(n));
      && (NumberOf(s.numbers, p) in StaleNumbers(s.numbers, s.procs[q]) <==>
            t.procs[q].pc.DroppingAlias? && Enabled(t, q, Go) && !Names(Exec(t, q, Go).names, n, p))
      && (t.procs[q].pc.DroppingAlias? ==> n == Candidate(p))
  {
    RunKeeps(run);
    TakesIff(run[|run| - 1], p, q, n);
  }

  lemma TakesIff(s: State, p: Id, q: Id, n: Name)
    requires Inv(s) && Alive(s, p) && p != q && Names(s.names, n, p) && Enabled(s, q, Pick(n)) &&
      s.procs[q].pc.Sweeping?
    ensures var t := Exec(s, q, Pick(n));
      && (NumberOf(s.numbers, p) in StaleNumbers(s.numbers, s.procs[q]) <==> t.procs[q].pc.DroppingAlias?)
      && (t.procs[q].pc.DroppingAlias? ==> n == Candidate(p) && Enabled(t, q, Go))
      && (t.procs[q].pc.DroppingAlias? ==> !Names(Exec(t, q, Go).names, n, p))
  {
    hide RunInv;
    hide ProcInv, NamesInv;
    var t := Exec(s, q, Pick(n));
    if t.procs[q].pc.DroppingAlias? {
      PickedIsRemovable(s, q, n);
      hide Inv, InUse, StaleNumbers, Exposed, Removable;
      assert t.procs[q].pc.entry == n && t.names == s.names;
      assert Exec(t, q, Go).names == s.names - {n};
    }
  }

  /** In every run the "cycle" error is unreachable, a walk meets each dead claim once, and what is taken for a
      duplicate never is one of the claims met before: that one is gone, and its number was given away. */
  lemma WalksAreSimple(run: seq<State>, p: Id)
    requires Run(run) && Alive(run[|run| - 1], p)
    ensures var s := run[|run| - 1]; var pr := s.procs[p];
      && (pr.pc.Linking? ==> pr.path !in pr.visited)
      && (forall i, j | 0 <= i < j < |pr.stale| :: pr.stale[i].id != pr.stale[j].id)
      && (pr.pc.CheckingDuplicate? ==> pr.pc.seen !in StaleIds(pr))
      && (pr.pc.Confirming? && Enabled(s, p, Go) && Exec(s, p, Go).procs[p].pc.CheckingDuplicate? ==>
            exists j | 0 <= j < |pr.stale| ::
              && NumberOf(s.numbers, pr.stale[j].id) == NumberOf(s.numbers, pr.pc.seen)
              && pr.stale[j].id != pr.pc.seen && !InUse(s, pr.stale[j].id))
  {
    EveryRunKeeps(run);
    var s := run[|run| - 1];
    var pr := s.procs[p];
    assert Grounded(s.names, s.died, p, pr);
    if pr.pc.Linking? {
      WalkNeverCycles(s.died, pr);
    } else if pr.pc.Confirming? && Exec(s, p, Go).procs[p].pc.CheckingDuplicate? {
      DuplicateIsAnother(s, p);
    }
  }

  lemma DuplicateIsAnother(s: State, p: Id)
    requires RunInv(s) && Enabled(s, p, Go) && s.procs[p].pc.Confirming?
    requires Exec(s, p, Go).procs[p].pc.CheckingDuplicate?
    ensures var pr := s.procs[p];
      && pr.pc.seen !in StaleIds(pr) && InUse(s, pr.pc.seen)
      && exists j | 0 <= j < |pr.stale| ::
           && NumberOf(s.numbers, pr.stale[j].id) == NumberOf(s.numbers, pr.pc.seen)
           && pr.stale[j].id != pr.pc.seen && !InUse(s, pr.stale[j].id)
  {
    var pr := s.procs[p];
    assert Grounded(s.names, s.died, p, pr);
    AdvanceWalks(s.names, s.numbers, s.died, pr, pr.pc.seen);
    assert Pins(pr.pc, pr.pc.seen) && Pinned(s, pr.pc.seen);
    var j :| 0 <= j < |pr.stale| && NumberOf(s.numbers, pr.stale[j].id) == NumberOf(s.numbers, pr.pc.seen);
    assert pr.stale[j].id in StaleIds(pr);
  }

  // ---------------------------------------------------------------------------------------------
  // Runs in which no new file has a number that a live attempt remembers

  ghost predicate Reserved(run: seq<State>) {
    run != [] && run[0] == INIT && forall i | 0 <= i < |run| - 1 :: ReservedStep(run[i], run[i + 1])
  }

  ghost predicate ReservedStep(s: State, t: State) {
    exists p, a :: Enabled(s, p, a) && t == Exec(s, p, a) && Reserves(s, a)
  }

  predicate Reserves(s: State, a: Action) {
    a.Create? ==> forall q <- s.procs | Alive(s, q) :: Some(a.number) !in StaleNumbers(s.numbers, s.procs[q])
  }

  /** A remembered number still is that of the remembered claim. */
  ghost predicate Remembers(s: State, q: Id, i: Id)
    requires q in s.procs
  {
    InUse(s, i) && NumberOf(s.numbers, i) in StaleNumbers(s.numbers, s.procs[q]) ==> i in StaleIds(s.procs[q])
  }

  ghost predicate ReservedInv(s: State) {
    && (forall q, i | Alive(s, q) :: Remembers(s, q, i))
    && (forall q | Alive(s, q) :: !s.procs[q].pc.CheckingDuplicate? && !s.procs[q].pc.DroppingDuplicate?)
  }

  lemma ComesToDuplicate(names: map<Name, Id>, numbers: map<Id, nat>, p: Id, pr: Proc)
    ensures var pc := Operate(names, numbers, p, pr).pr.pc;
      (pc.CheckingDuplicate? ==> pr.pc.Confirming?) && (pc.DroppingDuplicate? ==> pr.pc.CheckingDuplicate?)
  {
    hide LinkedExactly, Rename;
  }

  lemma NoDuplicate(s: State, p: Id, a: Action)
    requires Inv(s) && ReservedInv(s) && Enabled(s, p, a) && Alive(s, p) && !a.Die?
    ensures var pc := Exec(s, p, a).procs[p].pc; !pc.CheckingDuplicate? && !pc.DroppingDuplicate?
  {
    hide RunInv;
    hide Chained, InCrashOrder, LinkedExactly, InUse, CanFail;
    if a == Go {
      ComesToDuplicate(s.names, s.numbers, p, s.procs[p]);
      if s.procs[p].pc.Confirming? {
        assert Remembers(s, p, s.procs[p].pc.seen);
        if Exec(s, p, Go).procs[p].pc.CheckingDuplicate? {
          DuplicateIsAnother(s, p);
        }
      }
    }
    hide Operate, Inv;
  }

  /** An operation leaves the walk as it is, starts it over, or adds the claim that was confirmed. */
  lemma StaleAfterOperation(names: map<Name, Id>, numbers: map<Id, nat>, p: Id, pr: Proc)
    ensures var stale := Operate(names, numbers, p, pr).pr.stale;
      stale == pr.stale || stale == [] || (pr.pc.Confirming? && stale == pr.stale + [Stale(pr.path, pr.pc.seen)])
  {
    hide LinkedExactly, Rename;
  }

  lemma StaleAfter(s: State, p: Id, a: Action)
    requires Inv(s) && Enabled(s, p, a) && Alive(s, p) && !a.Die?
    ensures var pr, stale := s.procs[p], Exec(s, p, a).procs[p].stale;
      stale == pr.stale || stale == [] || (pr.pc.Confirming? && stale == pr.stale + [Stale(pr.path, pr.pc.seen)])
  {
    hide Inv, Operate;
    if a == Go {
      StaleAfterOperation(s.names, s.numbers, p, s.procs[p]);
    }
  }

  lemma OwnRemembers(s: State, p: Id, a: Action, i: Id)
    requires Inv(s) && ReservedInv(s) && Enabled(s, p, a) && Alive(s, p) && !a.Die? && !a.Create?
    requires InUse(s, i)
    ensures Remembers(Exec(s, p, a), p, i)
  {
    hide InUse;
    var t := Exec(s, p, a);
    var pr, stale := s.procs[p], t.procs[p].stale;
    StaleAfter(s, p, a);
    StepUses(s, p, a);
    assert Remembers(s, p, i);
    hide Inv, ReservedInv, Exec, Enabled;
    if stale != pr.stale && stale != [] {
      var seen := pr.pc.seen;
      assert forall j | 0 <= j < |pr.stale| :: stale[j] == pr.stale[j];
      assert stale[|pr.stale|].id == seen;
      SeenIsAlone(s, p, i);
    }
  }

  lemma SeenIsAlone(s: State, p: Id, i: Id)
    requires Inv(s) && Alive(s, p) && s.procs[p].pc.Confirming? && InUse(s, i)
    ensures NumberOf(s.numbers, i) == NumberOf(s.numbers, s.procs[p].pc.seen) ==> i == s.procs[p].pc.seen
  {
    assert Pins(s.procs[p].pc, s.procs[p].pc.seen) && Pinned(s, s.procs[p].pc.seen);
  }

  lemma UsedBefore(s: State, p: Id, a: Action, i: Id)
    requires Inv(s) && Enabled(s, p, a) && InUse(Exec(s, p, a), i) && !(a.Create? && i == p)
    ensures InUse(s, i)
  {
    hide RunInv, InUse, Exec;
    if a.Create? {
      CreationUses(s, p, a.number, i);
    } else {
      StepUses(s, p, a);
    }
  }

  lemma OtherRemembers(s: State, p: Id, a: Action, q: Id, i: Id)
    requires Inv(s) && ReservedInv(s) && Enabled(s, p, a) && Reserves(s, a) && Alive(s, q) && q != p
    requires InUse(Exec(s, p, a), i)
    ensures q in Exec(s, p, a).procs && Remembers(Exec(s, p, a), q, i)
  {
    var t := Exec(s, p, a);
    SameStaleNumbers(s, p, a, q);
    NumbersStay(s, p, a);
    if a.Create? && i == p {
      CreationIs(s, p, a.number);
      assert NumberOf(t.numbers, i) == Some(a.number);
    } else {
      UsedBefore(s, p, a, i);
      assert Remembers(s, q, i) && i in s.numbers;
    }
    hide Inv, InUse, Exec, StaleNumbers, StaleIds;
  }

  lemma NothingWalked(s: State, p: Id)
    requires Inv(s) && Alive(s, p) && s.procs[p].pc.Creating?
    ensures s.procs[p].stale == []
  {
    ProcOf(s, p);
  }

  lemma FirstRemembers(s: State, p: Id, a: Action, i: Id)
    requires Inv(s) && Enabled(s, p, a) && (a.Spawn? || a.Create?)
    ensures Remembers(Exec(s, p, a), p, i)
  {
    if a.Create? {
      NothingWalked(s, p);
    }
    hide Inv, InUse;
    assert Exec(s, p, a).procs[p].stale == [];
  }

  lemma RemembersOn(s: State, p: Id, a: Action, q: Id, i: Id)
    requires Inv(s) && ReservedInv(s) && Enabled(s, p, a) && Reserves(s, a) && Alive(Exec(s, p, a), q)
    ensures Remembers(Exec(s, p, a), q, i)
  {
    hide Inv, InUse, ReservedInv, Reserves;
    if InUse(Exec(s, p, a), i) {
      if q != p {
        OtherRemembers(s, p, a, q, i);
      } else if a.Spawn? || a.Create? {
        FirstRemembers(s, p, a, i);
      } else {
        UsedBefore(s, p, a, i);
        OwnRemembers(s, p, a, i);
      }
    }
  }

  lemma ReservedKeeps(s: State, p: Id, a: Action)
    requires Inv(s) && ReservedInv(s) && Enabled(s, p, a) && Reserves(s, a)
    ensures Spares(s, p, a) && ReservedInv(Exec(s, p, a))
  {
    var t := Exec(s, p, a);
    forall q, i | Alive(t, q) ensures Remembers(t, q, i) {
      RemembersOn(s, p, a, q, i);
    }
    forall q | Alive(t, q) ensures !t.procs[q].pc.CheckingDuplicate? && !t.procs[q].pc.DroppingDuplicate? {
      if q == p && a != Spawn {
        NoDuplicate(s, p, a);
      } else if q != p {
        assert t.procs[q] == s.procs[q];
      }
    }
  }

  lemma {:induction false} ReservedRunKeeps(run: seq<State>)
    requires Reserved(run)
    ensures Sparing(run) && Inv(run[|run| - 1]) && ReservedInv(run[|run| - 1])
  {
    if |run| == 1 {
      InitHolds();
    } else {
      var before, last := run[..|run| - 1], run[|run| - 1];
      assert Reserved(before);
      ReservedRunKeeps(before);
      var s := run[|run| - 2];
      assert ReservedStep(run[|run| - 2], run[|run| - 1]);
      var p, a :| Enabled(s, p, a) && last == Exec(s, p, a) && Reserves(s, a);
      ReservedKeeps(s, p, a);
      StepKeeps(s, p, a);
      forall i | 0 <= i < |run| - 1 ensures SparingStep(run[i], run[i + 1]) {
        assert i < |before| - 1 ==> SparingStep(before[i], before[i + 1]);
      }
    }
  }

  /** In such runs the "duplicate identity" branch is unreachable, and nobody else takes or gives a link of a live
      attempt's file. */
  lemma RememberedNumbersAreSafe(run: seq<State>, p: Id, q: Id, a: Action, n: Name)
    requires Reserved(run)
    requires var s := run[|run| - 1]; Alive(s, p) && p != q && Enabled(s, q, a)
    ensures Sparing(run)
    ensures var s := run[|run| - 1];
      && !s.procs[p].pc.CheckingDuplicate? && !s.procs[p].pc.DroppingDuplicate?
      && Names(Exec(s, q, a).names, n, p) == Names(s.names, n, p)
  {
    ReservedRunKeeps(run);
    var s := run[|run| - 1];
    if Names(Exec(s, q, a).names, n, p) {
      OthersGainNothing(s, q, a, p, n);
    } else if Names(s.names, n, p) && q in s.procs && Alive(s, q) {
      assert Linked(s.names, p) && Remembers(s, q, p);
      assert ProcInv(s.names, s.died, q, s.procs[q]);
      LinkIsSafe(s, p, q, a, n);
    }
  }
}

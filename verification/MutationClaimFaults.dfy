/** The mutation claim when operations fail and others interfere: what each check of the own links has shown, what a
    read that is overtaken does, and what failures leave behind. */
module MutationClaimFaults {
  import opened Common
  import opened MutationClaim
  import opened MutationClaimRuns
  import opened MutationClaimAlone

  // ---------------------------------------------------------------------------------------------
  // The checks of an attempt's own links

  lemma SubsetOfSameSize(a: set<Name>, b: set<Name>)
    requires a <= b && |a| == |b|
    ensures a == b
  {
    assert b == a + (b - a);
  }

  lemma LinkedExactlyIff(names: map<Name, Id>, p: Id, ns: set<Name>)
    ensures LinkedExactly(names, p, ns) <==> forall n :: Names(names, n, p) <==> n in ns
  {
    var own := set n | n in names && names[n] == p;
    if LinkedExactly(names, p, ns) {
      SubsetOfSameSize(ns, own);
      forall n ensures Names(names, n, p) <==> n in own {}
    }
    if forall n :: Names(names, n, p) <==> n in ns {
      ExactLinks(names, p, ns);
    }
  }

  /** Before an attempt goes on from here, its file must have exactly these names. */
  function Demanded(p: Id, pr: Proc): Option<set<Name>> {
    match pr.pc
    case CheckingCandidate => Some({Candidate(p)})
    case CheckingLink => Some({Candidate(p), pr.path})
    case CheckingPromotion => Some({Root, pr.path})
    case ListingAliases => Some({Root})
    case FinalCheck => Some({Root})
    case Owned => Some({Root})
    case _ => None
  }

  /** In every run, also where an unlink of a "duplicate" took what others rely on: an attempt passes a check of its
      links, the last before it owns the claim and the one before it releases it among them, exactly if its file has
      the names that it should have and no others; and the check changes no name. */
  lemma ChecksHold(run: seq<State>, p: Id)
    requires Run(run)
    requires var s := run[|run| - 1]; Enabled(s, p, Go) && Demanded(p, s.procs[p]).Some?
    ensures var s := run[|run| - 1]; var t, pr := Exec(s, p, Go), s.procs[p];
      && t.names == s.names
      && (t.procs[p].pc != pr.pc && !t.procs[p].pc.Cleaning? <==>
            forall n :: Names(s.names, n, p) <==> n in Demanded(p, pr).value)
  {
    EveryRunKeeps(run);
    var s := run[|run| - 1];
    var pr := s.procs[p];
    OwnPath(s, p);
    LinkedExactlyIff(s.names, p, Demanded(p, pr).value);
    CheckOperation(s.names, s.numbers, p, pr);
    hide RunInv, InUse, LinkedExactly, Operate, Demanded;
  }

  lemma OwnPath(s: State, p: Id)
    requires RunInv(s) && Alive(s, p)
    ensures Installed(s.procs[p].pc) ==> s.procs[p].path == Root
  {
    assert Grounded(s.names, s.died, p, s.procs[p]);
    hide WalkInv, Traced, NumberInv;
  }

  lemma CheckOperation(names: map<Name, Id>, numbers: map<Id, nat>, p: Id, pr: Proc)
    requires Demanded(p, pr).Some? && (Installed(pr.pc) ==> pr.path == Root)
    ensures var e := Operate(names, numbers, p, pr);
      && e.names == names
      && (e.pr.pc != pr.pc && !e.pr.pc.Cleaning? <==> LinkedExactly(names, p, Demanded(p, pr).value))
  {
    hide LinkedExactly;
  }

  // ---------------------------------------------------------------------------------------------
  // Reads that are overtaken

  /** The walk has started over: at the root, with nothing remembered. */
  predicate StartedOver(pr: Proc) {
    pr.pc == Linking && pr.path == Root && pr.visited == {} && pr.stale == []
  }

  /** Whatever becomes of a path that is being read: the acquisition does not fail; it starts over exactly if the
      path is gone, names another file than the one opened, or the second read is not of the file of the first. */
  lemma ReadsStartOver(s: State, p: Id)
    requires Enabled(s, p, Go) && (s.procs[p].pc.Opening? || s.procs[p].pc.Confirming?)
    ensures var t, pr := Exec(s, p, Go), s.procs[p]; var now := t.procs[p];
      && t.names == s.names && !OnRollback(now.pc)
      && (StartedOver(now) <==>
            || (pr.pc.Opening? && pr.path !in s.names)
            || (pr.pc.Confirming? &&
              (!Names(s.names, pr.path, pr.pc.seen) || pr.pc.observed !in {None, Some(pr.pc.seen)})))
      && (!StartedOver(now) && pr.pc.Opening? ==> now == pr.(pc := Confirming(pr.pc.observed, s.names[pr.path])))
      && (!StartedOver(now) && pr.pc.Confirming? && pr.pc.observed == None ==> now == pr.(pc := Judging(pr.pc.seen)))
  {
    hide InUse;
  }

  /** Before a "duplicate" is unlinked, its path must still have the number of the file that was read. */
  lemma DuplicateIsChecked(s: State, p: Id)
    requires Enabled(s, p, Go) && s.procs[p].pc.CheckingDuplicate?
    ensures var t, pr := Exec(s, p, Go), s.procs[p];
      && t.names == s.names
      && t.procs[p].pc ==
           if pr.path in s.names && NumberOf(s.numbers, s.names[pr.path]) == NumberOf(s.numbers, pr.pc.seen)
           then DroppingDuplicate else Cleaning(pr.linked)
  {
    hide InUse;
  }

  /** The name that the next operation of an acquisition unlinks, renames or links to. */
  predicate Uses(names: map<Name, Id>, p: Id, pr: Proc, n: Name) {
    match pr.pc
    case Linking => pr.path !in pr.visited && pr.path !in names && n == Candidate(p)
    case DroppingDuplicate => n == pr.path
    case Promoting => n == Candidate(p)
    case DroppingCandidate => n == Candidate(p)
    case DroppingTail => n == pr.path
    case DroppingAlias(entry, _) => n == entry
    case _ => false
  }

  /** If somebody else has taken it away, the acquisition fails, and changes no name before its rollback. */
  lemma MissingNameFails(s: State, p: Id, n: Name)
    requires Enabled(s, p, Go) && Uses(s.names, p, s.procs[p], n) && n !in s.names
    ensures var t := Exec(s, p, Go);
      && t.names == s.names
      && t.procs[p].pc == Cleaning(s.procs[p].linked) && t.procs[p].linked == s.procs[p].linked
  {
    hide InUse;
  }

  // ---------------------------------------------------------------------------------------------
  // Failures of a release and of a rollback

  lemma ReleasingIs(s: State, p: Id)
    requires Inv(s) && Alive(s, p) &&
      (s.procs[p].pc.Owned? || s.procs[p].pc.Releasing? || s.procs[p].pc.DroppingRelease?)
    ensures s.procs[p].pc.DroppingRelease? || Names(s.names, Root, p)
    ensures s.procs[p].pc.DroppingRelease? ==> !Names(s.names, Root, p)
  {
    ProcOf(s, p);
    hide Inv, WalkInv, NamesInv;
  }

  /** A release that fails before its rename is done leaves the claim owned, and can be tried again; one that fails
      after that has given the root back, and leaves a file that is no claim. */
  lemma FailedRelease(run: seq<State>, p: Id)
    requires Sparing(run)
    requires var s := run[|run| - 1];
      Alive(s, p) && (s.procs[p].pc.Owned? || s.procs[p].pc.Releasing? || s.procs[p].pc.DroppingRelease?)
    ensures Enabled(run[|run| - 1], p, Throw)
    ensures var s, t := run[|run| - 1], Exec(run[|run| - 1], p, Throw);
      && t.names == s.names && p in t.procs
      && (!s.procs[p].pc.DroppingRelease? ==> t.procs[p] == s.procs[p].(pc := Owned) && Names(t.names, Root, p))
      && (s.procs[p].pc.DroppingRelease? ==> t.procs[p].pc == Done && !Names(t.names, Root, p))
  {
    RunKeeps(run);
    ReleasingIs(run[|run| - 1], p);
    hide Inv;
    ReleaseThrows(run[|run| - 1], p);
    hide Exec, Enabled;
  }

  lemma ReleaseThrows(s: State, p: Id)
    requires Alive(s, p) && (s.procs[p].pc.Owned? || s.procs[p].pc.Releasing? || s.procs[p].pc.DroppingRelease?)
    ensures Enabled(s, p, Throw)
    ensures var t := Exec(s, p, Throw);
      && t.names == s.names && p in t.procs
      && t.procs[p] == s.procs[p].(pc := if s.procs[p].pc.DroppingRelease? then Done else Owned)
  {
    hide InUse;
  }

  /** Step `i` of the run was to unlink this name, and failed. */
  ghost predicate FailedAt(run: seq<State>, p: Id, i: int, n: Name) {
    && 0 <= i < |run| - 1 && p in run[i].procs && p in run[i + 1].procs && IsDue(run[i].procs[p].pc, p, n)
    && Names(run[i].names, n, p) && Names(run[i + 1].names, n, p) && run[i].procs[p] != run[i + 1].procs[p]
  }

  predicate IsDue(pc: Pc, p: Id, n: Name) {
    (pc.DroppingLink? && pc.entry == n) || (pc.CleaningCandidate? && n == Candidate(p))
  }

  /** The name is still to be visited. */
  predicate IsAhead(pc: Pc, p: Id, n: Name) {
    match pc
    case Cleaning(todo) => n in todo || n == Candidate(p)
    case DroppingLink(entry, todo) => n in todo || n == entry || n == Candidate(p)
    case CleaningCandidate => n == Candidate(p)
    case _ => false
  }

  /** A rollback stays one, gives its file no name, and after each step a name is gone, or still ahead, or was the
      one whose unlink has failed. */
  ghost predicate Undone(names: map<Name, Id>, pr: Proc, names': map<Name, Id>, pr': Proc, p: Id, n: Name) {
    && OnRollback(pr'.pc) && (Removes(names', p, n) ==> Removes(names, p, n))
    && (Removes(names', p, n) && IsAhead(pr.pc, p, n) ==>
          IsAhead(pr'.pc, p, n) || (IsDue(pr.pc, p, n) && pr != pr'))
  }

  lemma UndoGoes(names: map<Name, Id>, numbers: map<Id, nat>, p: Id, pr: Proc, n: Name)
    requires OnRollback(pr.pc) && (pr.pc.Cleaning? ==> pr.pc.todo == {})
    ensures var e := OperateRollback(names, p, pr); Undone(names, pr, e.names, e.pr, p, n)
  {
  }

  lemma UndoPicks(names: map<Name, Id>, numbers: map<Id, nat>, p: Id, pr: Proc, m: Name, n: Name)
    requires pr.pc.Cleaning? && m in pr.pc.todo
    ensures Undone(names, pr, names, Picked(names, numbers, p, pr, m), p, n)
  {
  }

  lemma UndoThrows(names: map<Name, Id>, p: Id, pr: Proc, n: Name)
    requires OnRollback(pr.pc)
    ensures Undone(names, pr, names, Thrown(pr), p, n)
  {
  }

  lemma UndoMisses(s: State, p: Id, t: State, n: Name)
    requires StepOf(s, p, t) && p in s.procs && OnRollback(s.procs[p].pc)
    ensures p in t.procs && Undone(s.names, s.procs[p], t.names, t.procs[p], p, n)
  {
    var a :| Enabled(s, p, a) && t == Exec(s, p, a);
    var pr := s.procs[p];
    if a == Go {
      UndoGoes(s.names, s.numbers, p, pr, n);
    } else if a.Pick? {
      UndoPicks(s.names, s.numbers, p, pr, a.n, n);
    } else if a.Throw? {
      UndoThrows(s.names, p, pr, n);
    } else {
      assert a.Die? && t.procs == s.procs && t.names == s.names;
    }
    hide InUse, Picked, Thrown, OperateRollback, Undone;
  }

  /** Whatever steps of a rollback fail, it goes on with the others: at its end a name of the file that was to be
      removed is left only if its unlink was tried and failed. */
  lemma {:induction false} LeftIsFailed(run: seq<State>, p: Id, s: State, t: State, n: Name)
    requires LeadsTo(run, p, s, t) && p in s.procs && s.procs[p].pc == Cleaning(s.procs[p].linked)
    requires forall m :: Removes(s.names, p, m) ==> m in s.procs[p].linked || m == Candidate(p)
    ensures p in t.procs && OnRollback(t.procs[p].pc)
    ensures Removes(t.names, p, n) ==>
      Removes(s.names, p, n) && (IsAhead(t.procs[p].pc, p, n) || exists i :: FailedAt(run, p, i, n))
    decreases |run|
  {
    if |run| > 1 {
      var before, last := run[..|run| - 1], run[|run| - 2];
      forall i | 0 <= i < |before| - 1 ensures StepOf(before[i], p, before[i + 1]) {
        assert StepOf(run[i], p, run[i + 1]);
      }
      LeftIsFailed(before, p, s, last, n);
      assert StepOf(run[|run| - 2], p, run[|run| - 1]);
      UndoMisses(last, p, t, n);
      hide StepOf;
      if i :| FailedAt(before, p, i, n) {
        assert FailedAt(run, p, i, n);
      }
      if Removes(t.names, p, n) && IsDue(last.procs[p].pc, p, n) && last.procs[p] != t.procs[p] {
        assert FailedAt(run, p, |run| - 2, n);
      }
    }
  }
}

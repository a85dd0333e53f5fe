/** An attempt at the mutation claim that nobody disturbs: its acquisition succeeds, and its rollback is complete. */
module MutationClaimAlone {
  import opened Common
  import opened MutationClaim
  import opened MutationClaimRuns

  // ---------------------------------------------------------------------------------------------
  // A lone acquisition succeeds

  /** Everyone else is crashed or idle: each name is of a dead owner or of `p`. */
  predicate Quiet(names: map<Name, Id>, died: map<Id, nat>, p: Id) {
    forall n <- names :: names[n] == p || names[n] in died
  }

  /** What `p` has read is still so. */
  predicate Current(names: map<Name, Id>, p: Id, pr: Proc) {
    && !OnRollback(pr.pc) && !pr.pc.Releasing? && !pr.pc.DroppingRelease?
    && !pr.pc.CheckingDuplicate? && !pr.pc.DroppingDuplicate?
    && (HasCandidate(pr.pc) ==> Names(names, Candidate(p), p))
    && (pr.pc.DroppingAlias? ==> pr.pc.entry in names)
    && ((Walking(pr.pc) || AtTail(pr.pc)) && pr.stale != [] ==> Names(names, Root, pr.stale[0].id))
    && match pr.pc
       case Opening(observed) => pr.path in names && (observed.Some? ==> names[pr.path] == observed.value)
       case Confirming(observed, seen) => Names(names, pr.path, seen) && (observed.Some? ==> observed.value == seen)
       case Judging(seen) => Names(names, pr.path, seen)
       case ConfirmingRoot(seen) => Names(names, Root, seen)
       case _ => true
  }

  ghost predicate Calm(s: State, p: Id) {
    && RunInv(s) && Alive(s, p) && ProcInv(s.names, s.died, p, s.procs[p])
    && Quiet(s.names, s.died, p) && Current(s.names, p, s.procs[p])
  }

  lemma CalmProc(s: State, p: Id)
    requires Calm(s, p)
    ensures ProcInv(s.names, s.died, p, s.procs[p]) && NamesInv(s.names, s.died) && RunInv(s)
  {
    hide ProcInv, NamesInv, NumberInv;
  }

  function Phase(pc: Pc): nat {
    match pc
    case Creating => 13
    case CheckingCandidate => 12
    case CheckingLink => 10
    case OpeningRoot => 9
    case ConfirmingRoot(_) => 8
    case Promoting => 7
    case CheckingPromotion => 6
    case DroppingTail => 5
    case ListingAliases => 4
    case Sweeping(_) => 3
    case DroppingAlias(_, _) => 3
    case DroppingCandidate => 2
    case FinalCheck => 1
    case Owned => 0
    case _ => 11
  }

  function Detail(pc: Pc): nat {
    match pc
    case Linking => 5
    case Opening(observed) => if observed == None then 4 else 1
    case Confirming(observed, _) => if observed == None then 3 else 0
    case Judging(_) => 2
    case Sweeping(todo) => 2 * |todo|
    case DroppingAlias(_, todo) => 2 * |todo| + 1
    case Cleaning(todo) => 2 * |todo|
    case DroppingLink(_, todo) => 2 * |todo| + 1
    case _ => 0
  }

  predicate Closer(died: map<Id, nat>, now: Proc, next: Proc) {
    || Phase(next.pc) < Phase(now.pc)
    || (Phase(next.pc) == Phase(now.pc) && died.Keys - StaleIds(next) < died.Keys - StaleIds(now))
    || (Phase(next.pc) == Phase(now.pc) && next.stale == now.stale && Detail(next.pc) < Detail(now.pc))
  }

  lemma CandidateChecksPass(names: map<Name, Id>, p: Id, pr: Proc)
    requires LinksInv(names, p, pr) && (pr.pc.CheckingCandidate? || pr.pc.CheckingLink?) &&
      Names(names, Candidate(p), p)
    ensures LinkedExactly(names, p, if pr.pc.CheckingLink? then {Candidate(p), pr.path} else {Candidate(p)})
  {
    ExactLinks(names, p, if pr.pc.CheckingLink? then {Candidate(p), pr.path} else {Candidate(p)});
  }

  lemma HolderChecksPass(names: map<Name, Id>, p: Id, pr: Proc)
    requires LinksInv(names, p, pr) && (pr.pc.CheckingPromotion? || Installed(pr.pc))
    ensures LinkedExactly(names, p, if Installed(pr.pc) then {pr.path} else {Root, pr.path})
  {
    ExactLinks(names, p, if Installed(pr.pc) then {pr.path} else {Root, pr.path});
  }

  ghost predicate Undisturbed(names: map<Name, Id>, died: map<Id, nat>, p: Id, pr: Proc) {
    Ready(names, died, p, pr) && Quiet(names, died, p) && Current(names, p, pr)
  }

  /** Linked files with the same number are the same file. */
  ghost predicate NumbersTell(names: map<Name, Id>, numbers: map<Id, nat>) {
    forall n, m | n in names && m in names && NumberOf(numbers, names[n]) == NumberOf(numbers, names[m]) ::
      names[n] == names[m]
  }

  ghost predicate Approaches(names: map<Name, Id>, died: map<Id, nat>, p: Id, pr: Proc, e: Effect) {
    Quiet(e.names, died, p) && Current(e.names, p, e.pr) && Closer(died, pr, e.pr)
  }

  lemma LinkingComesCloser(names: map<Name, Id>, numbers: map<Id, nat>, died: map<Id, nat>, p: Id, pr: Proc)
    requires Quiet(names, died, p) && Current(names, p, pr) && pr.pc.Linking?
    requires pr.path !in pr.visited && (pr.stale != [] ==> pr.path != Root)
    ensures Approaches(names, died, p, pr, OperateWalk(names, numbers, p, pr))
  {
    hide StaleIds;
  }

  lemma ReadComesCloser(names: map<Name, Id>, numbers: map<Id, nat>, died: map<Id, nat>, p: Id, pr: Proc)
    requires Quiet(names, died, p) && Current(names, p, pr) && (pr.pc.Opening? || pr.pc.Judging?)
    ensures Approaches(names, died, p, pr, OperateWalk(names, numbers, p, pr))
  {
    hide StaleIds;
  }

  lemma WalkComesCloser(names: map<Name, Id>, numbers: map<Id, nat>, died: map<Id, nat>, p: Id, pr: Proc)
    requires Undisturbed(names, died, p, pr) && (Walking(pr.pc) && !pr.pc.Confirming?)
    ensures Approaches(names, died, p, pr, OperateWalk(names, numbers, p, pr))
  {
    assert !pr.pc.CheckingDuplicate? && !pr.pc.DroppingDuplicate?;
    if pr.pc.Linking? {
      WalkNeverCycles(died, pr);
      assert pr.path == EndOf(pr.stale);
      LinkingComesCloser(names, numbers, died, p, pr);
    } else {
      ReadComesCloser(names, numbers, died, p, pr);
    }
    hide LinksInv, NamesInv, Chained, InCrashOrder, Frozen, OperateWalk;
  }

  /** The claims walked are all linked, so the one that is met next has a number of its own. */
  lemma NumberIsNew(names: map<Name, Id>, numbers: map<Id, nat>, died: map<Id, nat>, p: Id, pr: Proc, seen: Id)
    requires Undisturbed(names, died, p, pr) && NumbersTell(names, numbers) && pr.pc.Confirming?
    requires Names(names, pr.path, seen) && seen !in StaleIds(pr)
    ensures NumberOf(numbers, seen) !in StaleNumbers(numbers, pr)
  {
    forall j | 0 <= j < |pr.stale|
      ensures NumberOf(numbers, pr.stale[j].id) != NumberOf(numbers, seen)
    {
      assert Names(names, pr.stale[j].path, pr.stale[j].id);
      assert pr.stale[j].id in StaleIds(pr);
    }
  }

  lemma FewerLeft(died: map<Id, nat>, pr: Proc, next: Proc, seen: Id)
    requires next.stale == pr.stale + [Stale(pr.path, seen)] && seen in died && seen !in StaleIds(pr)
    ensures died.Keys - StaleIds(next) < died.Keys - StaleIds(pr)
  {
    assert next.stale[|pr.stale|].id == seen && seen in StaleIds(next);
    assert forall j | 0 <= j < |pr.stale| :: next.stale[j] == pr.stale[j];
    assert StaleIds(pr) <= StaleIds(next);
  }

  lemma FirstConfirmComesCloser(names: map<Name, Id>, numbers: map<Id, nat>, died: map<Id, nat>, p: Id, pr: Proc)
    requires Quiet(names, died, p) && Current(names, p, pr) && pr.pc.Confirming? && pr.pc.observed == None
    ensures Approaches(names, died, p, pr, OperateWalk(names, numbers, p, pr))
  {
  }

  lemma GrownIsCurrent(names: map<Name, Id>, p: Id, pr: Proc, next: Proc, seen: Id)
    requires Current(names, p, pr) && pr.pc.Confirming? && Names(names, pr.path, seen)
    requires pr.stale == [] ==> pr.path == Root
    requires next == pr.(pc := Linking, stale := pr.stale + [Stale(pr.path, seen)], path := Next(seen))
    ensures Current(names, p, next)
  {
    assert pr.stale != [] ==> next.stale[0] == pr.stale[0];
  }

  lemma ConfirmComesCloser(names: map<Name, Id>, numbers: map<Id, nat>, died: map<Id, nat>, p: Id, pr: Proc)
    requires Undisturbed(names, died, p, pr) && NumbersTell(names, numbers) && pr.pc.Confirming?
    ensures Approaches(names, died, p, pr, OperateWalk(names, numbers, p, pr))
  {
    var seen := pr.pc.seen;
    assert pr.pc.observed.Some? ==> pr.pc.observed.value in died;
    assert pr.stale == [] ==> pr.path == Root;
    if pr.pc.observed == None {
      FirstConfirmComesCloser(names, numbers, died, p, pr);
    } else {
      var next := Advance(numbers, pr, seen);
      assert pr.pc.observed == Some(seen) && Names(names, pr.path, seen);
      AdvanceKeeps(names, numbers, died, p, pr, seen);
      NumberIsNew(names, numbers, died, p, pr, seen);
      FewerLeft(died, pr, next, seen);
      GrownIsCurrent(names, p, pr, next, seen);
      assert OperateWalk(names, numbers, p, pr) == Effect(names, next);
    }
    hide ProcInv, NamesInv, StaleIds, StaleNumbers, NumbersTell, Current, Quiet;
  }

  lemma CreationComesCloser(names: map<Name, Id>, died: map<Id, nat>, p: Id, pr: Proc)
    requires Undisturbed(names, died, p, pr) && pr.pc.Creating?
    ensures Approaches(names, died, p, pr, Effect(names[Candidate(p) := p], pr.(pc := CheckingCandidate)))
  {
  }

  lemma CandidateComesCloser(names: map<Name, Id>, numbers: map<Id, nat>, died: map<Id, nat>, p: Id, pr: Proc)
    requires Undisturbed(names, died, p, pr) && pr.pc.CheckingCandidate?
    ensures Approaches(names, died, p, pr, OperateWalk(names, numbers, p, pr))
  {
    CandidateChecksPass(names, p, pr);
  }

  lemma TailComesCloser(names: map<Name, Id>, died: map<Id, nat>, p: Id, pr: Proc)
    requires Undisturbed(names, died, p, pr) && (AtTail(pr.pc) && !pr.pc.Promoting?)
    ensures Approaches(names, died, p, pr, OperateTail(names, p, pr))
  {
    if pr.pc.CheckingLink? {
      CandidateChecksPass(names, p, pr);
    }
  }

  lemma PromotionComesCloser(names: map<Name, Id>, died: map<Id, nat>, p: Id, pr: Proc)
    requires Undisturbed(names, died, p, pr) && (pr.pc.Promoting?)
    ensures Approaches(names, died, p, pr, OperateTail(names, p, pr))
  {
  }

  lemma HolderComesCloser(names: map<Name, Id>, died: map<Id, nat>, p: Id, pr: Proc)
    requires Undisturbed(names, died, p, pr) && (pr.pc.DroppingTail? || pr.pc.DroppingAlias? || pr.pc == Sweeping({}))
    ensures Approaches(names, died, p, pr, OperateHolder(names, p, pr))
  {
    hide CanFail, Chained, InCrashOrder;
  }

  lemma HolderCheckComesCloser(names: map<Name, Id>, died: map<Id, nat>, p: Id, pr: Proc)
    requires Undisturbed(names, died, p, pr) && (pr.pc.CheckingPromotion? || pr.pc.ListingAliases? || pr.pc.FinalCheck?)
    ensures Approaches(names, died, p, pr, OperateHolder(names, p, pr))
  {
    HolderChecksPass(names, p, pr);
  }

  /** The stale claims' names still to be swept are on the list. */
  predicate Swept(names: map<Name, Id>, pr: Proc) {
    match pr.pc
    case Sweeping(todo) => forall n <- names | names[n] in StaleIds(pr) :: n in todo
    case DroppingAlias(entry, todo) => forall n <- names | names[n] in StaleIds(pr) :: n == entry || n in todo
    case FinalCheck => forall n <- names :: names[n] !in StaleIds(pr)
    case Owned => forall n <- names :: names[n] !in StaleIds(pr)
    case _ => true
  }

  lemma SweepAdvances(names: map<Name, Id>, died: map<Id, nat>, p: Id, pr: Proc)
    requires p !in died && ProcInv(names, died, p, pr) && Swept(names, pr)
    requires pr.pc.ListingAliases? || pr.pc.DroppingAlias? || pr.pc == Sweeping({}) || pr.pc.FinalCheck?
    ensures var e := OperateHolder(names, p, pr); Swept(e.names, e.pr)
  {
    assert forall j | 0 <= j < |pr.stale| :: pr.stale[j].id != p;
  }

  lemma PickComesCloser(names: map<Name, Id>, numbers: map<Id, nat>, died: map<Id, nat>, p: Id, pr: Proc, n: Name)
    requires pr.pc.Sweeping? && n in pr.pc.todo && Swept(names, pr)
    ensures var next := Picked(names, numbers, p, pr, n);
      Current(names, p, next) && Swept(names, next) && Closer(died, pr, next)
  {
    assert forall j | 0 <= j < |pr.stale| :: NumberOf(numbers, pr.stale[j].id) in StaleNumbers(numbers, pr);
  }

  /** Without interference, faults or wrong verdicts, each step of `p` brings it closer to owning. */
  lemma GoComesCloser(names: map<Name, Id>, numbers: map<Id, nat>, died: map<Id, nat>, p: Id, pr: Proc)
    requires Undisturbed(names, died, p, pr) && NumbersTell(names, numbers) && Swept(names, pr)
    requires pr.pc != Owned && !pr.pc.Creating? && (pr.pc.Sweeping? ==> pr.pc.todo == {})
    ensures var e := Operate(names, numbers, p, pr); Approaches(names, died, p, pr, e) && Swept(e.names, e.pr)
  {
    hide Chained, InCrashOrder, LinkedExactly, InUse, CanFail;
    if pr.pc.Confirming? {
      ConfirmComesCloser(names, numbers, died, p, pr);
    } else if Walking(pr.pc) {
      WalkComesCloser(names, numbers, died, p, pr);
    } else if pr.pc.CheckingCandidate? {
      CandidateComesCloser(names, numbers, died, p, pr);
    } else if pr.pc.Promoting? {
      PromotionComesCloser(names, died, p, pr);
    } else if AtTail(pr.pc) {
      TailComesCloser(names, died, p, pr);
    } else if pr.pc.DroppingTail? {
      HolderComesCloser(names, died, p, pr);
    } else if pr.pc.DroppingAlias? || pr.pc.Sweeping? {
      SweepAdvances(names, died, p, pr);
      HolderComesCloser(names, died, p, pr);
    } else {
      if !pr.pc.CheckingPromotion? {
        SweepAdvances(names, died, p, pr);
      }
      HolderCheckComesCloser(names, died, p, pr);
    }
  }

  ghost predicate StepsOf(run: seq<State>, p: Id) {
    forall i | 0 <= i < |run| - 1 :: StepOf(run[i], p, run[i + 1])
  }

  ghost predicate StepOf(s: State, p: Id, t: State) {
    exists a :: Enabled(s, p, a) && t == Exec(s, p, a)
  }

  lemma {:induction false} RunGrows(run: seq<State>, p: Id, t: State)
    requires run != [] && StepsOf(run, p) && StepOf(run[|run| - 1], p, t)
    ensures StepsOf(run + [t], p)
  {
    var longer := run + [t];
    forall i | 0 <= i < |longer| - 1
      ensures StepOf(longer[i], p, longer[i + 1])
    {
      assert longer[i] == run[i];
      assert i < |run| - 1 ==> longer[i + 1] == run[i + 1];
    }
  }

  method UnusedNumber(numbers: set<nat>) returns (unused: nat)
    ensures unused !in numbers
  {
    unused := 0;
    var rest := numbers;
    while rest != {}
      invariant forall k | k in numbers && k !in rest :: k < unused
      decreases rest
    {
      var k :| k in rest;
      rest := rest - {k};
      if unused <= k {
        unused := k + 1;
      }
    }
  }

  lemma CreateAlone(s: State, p: Id, number: nat)
    requires Calm(s, p) && Swept(s.names, s.procs[p]) && s.procs[p].pc.Creating? && Free(s, number)
    ensures Enabled(s, p, Create(number)) && Calm(Exec(s, p, Create(number)), p)
    ensures var t := Exec(s, p, Create(number));
      Swept(t.names, t.procs[p]) && t.died == s.died && Closer(s.died, s.procs[p], t.procs[p])
  {
    hide NumberInv, Grounded;
    hide InUse;
    assert Enabled(s, p, Create(number));
    CreationIs(s, p, number);
    RunStepKeeps(s, p, Create(number));
    CreatingKeeps(s.names, s.died, p, s.procs[p]);
    CreatedComesCloser(s, p);
    hide RunInv, ProcInv, Free, Current, Quiet, Closer, Swept, Exec, Enabled;
  }

  lemma CreatedComesCloser(s: State, p: Id)
    requires Calm(s, p) && s.procs[p].pc.Creating?
    ensures var names, pr := s.names[Candidate(p) := p], s.procs[p].(pc := CheckingCandidate);
      Quiet(names, s.died, p) && Current(names, p, pr) && Swept(names, pr) && Closer(s.died, s.procs[p], pr)
  {
    CalmProc(s, p);
    CreationComesCloser(s.names, s.died, p, s.procs[p]);
    NothingSweptYet(s.names[Candidate(p) := p], s.procs[p].(pc := CheckingCandidate));
    hide RunInv, ProcInv, NamesInv, Quiet, Current, Closer, Swept;
  }

  lemma NothingSweptYet(names: map<Name, Id>, pr: Proc)
    requires pr.pc.CheckingCandidate?
    ensures Swept(names, pr)
  {
  }

  lemma PickAlone(s: State, p: Id, n: Name)
    requires Calm(s, p) && Swept(s.names, s.procs[p]) && s.procs[p].pc.Sweeping? && n in s.procs[p].pc.todo
    ensures Enabled(s, p, Pick(n)) && Calm(Exec(s, p, Pick(n)), p)
    ensures var t := Exec(s, p, Pick(n));
      Swept(t.names, t.procs[p]) && t.died == s.died && Closer(s.died, s.procs[p], t.procs[p])
  {
    RunStepKeeps(s, p, Pick(n));
    PickKeeps(s.names, s.numbers, s.died, p, s.procs[p], n);
    PickComesCloser(s.names, s.numbers, s.died, p, s.procs[p], n);
    hide RunInv, ProcInv, Current, Quiet, Closer, Swept, Picked, InUse;
  }

  lemma GoAlone(s: State, p: Id)
    requires Calm(s, p) && Swept(s.names, s.procs[p]) && s.procs[p].pc != Owned && !s.procs[p].pc.Creating?
    requires s.procs[p].pc.Sweeping? ==> s.procs[p].pc.todo == {}
    ensures Enabled(s, p, Go) && Calm(Exec(s, p, Go), p)
    ensures var t := Exec(s, p, Go);
      Swept(t.names, t.procs[p]) && t.died == s.died && Closer(s.died, s.procs[p], t.procs[p])
  {
    hide Grounded;
    hide StaleIds;
    CalmProc(s, p);
    LinkedNumbersTell(s);
    JudgedDead(s, p);
    RunStepKeeps(s, p, Go);
    OwnGoKeeps(s.names, s.numbers, s.died, p, s.procs[p]);
    GoComesCloser(s.names, s.numbers, s.died, p, s.procs[p]);
    hide RunInv, ProcInv, NamesInv, NumbersTell, Current, Quiet, Closer, Swept, Operate, InUse;
  }

  /** Nothing else is there that the sweep could meet than names of dead owners. */
  lemma OwnGoKeeps(names: map<Name, Id>, numbers: map<Id, nat>, died: map<Id, nat>, p: Id, pr: Proc)
    requires Undisturbed(names, died, p, pr) && !pr.pc.Creating?
    ensures ProcInv(Operate(names, numbers, p, pr).names, died, p, Operate(names, numbers, p, pr).pr)
  {
    if pr.pc.DroppingAlias? {
      AliasKeeps(names, died, p, pr, {});
    } else {
      OperateKeeps(names, numbers, died, p, pr);
    }
    hide InCrashOrder, Chained, LinkedExactly;
  }

  /** A lone attempt can go on: the owner that it judges is dead. */
  lemma JudgedDead(s: State, p: Id)
    requires Calm(s, p)
    ensures s.procs[p].pc.Judging? ==> s.procs[p].pc.seen in s.died
    ensures !OnRollback(s.procs[p].pc) && !s.procs[p].pc.DroppingDuplicate?
  {
    CalmProc(s, p);
    hide RunInv;
    assert s.procs[p].pc.Judging? ==> Names(s.names, s.procs[p].path, s.procs[p].pc.seen);
  }

  // What a lone acquisition does to the names of others

  /** By its number a linked file is told from the claims walked so far; the next name to be swept is one of theirs. */
  ghost predicate Tells(names: map<Name, Id>, numbers: map<Id, nat>, pr: Proc) {
    && (forall n <- names :: NumberOf(numbers, names[n]) in StaleNumbers(numbers, pr) ==> names[n] in StaleIds(pr))
    && (pr.pc.DroppingAlias? ==> pr.pc.entry in names && names[pr.pc.entry] in StaleIds(pr))
    && (pr.pc.CheckingCandidate? ==> pr.stale == [])
  }

  /** No names come but those of `p`, and none go but those of `p` and of claims that it has walked. */
  ghost predicate OnlyStaleGone(names: map<Name, Id>, names': map<Name, Id>, p: Id, pr: Proc) {
    && (forall n <- names' :: names'[n] == p || Names(names, n, names'[n]))
    && (forall n <- names :: names[n] == p || names[n] in StaleIds(pr) || Names(names', n, names[n]))
  }

  ghost predicate SparesOthers(names: map<Name, Id>, numbers: map<Id, nat>, p: Id, pr: Proc, e: Effect) {
    && OnlyStaleGone(names, e.names, p, e.pr) && StaleIds(pr) <= StaleIds(e.pr) && Tells(e.names, numbers, e.pr)
  }

  /** Where the walk is as it was, it is enough that no file is linked that was not. */
  lemma SameWalkTells(names: map<Name, Id>, numbers: map<Id, nat>, pr: Proc, names': map<Name, Id>, next: Proc)
    requires Tells(names, numbers, pr) && next.stale == pr.stale && !next.pc.DroppingAlias? &&
      !next.pc.CheckingCandidate?
    requires forall n <- names' :: exists m <- names :: names[m] == names'[n]
    ensures Tells(names', numbers, next) && StaleIds(next) == StaleIds(pr)
  {
    assert StaleNumbers(numbers, next) == StaleNumbers(numbers, pr);
    hide StaleIds, StaleNumbers;
  }

  lemma WalkSpares(names: map<Name, Id>, numbers: map<Id, nat>, died: map<Id, nat>, p: Id, pr: Proc)
    requires Current(names, p, pr) && Tells(names, numbers, pr)
    requires
      || (Walking(pr.pc) && !pr.pc.Confirming?)
      || (pr.pc.CheckingCandidate? && LinkedExactly(names, p, {Candidate(p)}))
    requires pr.pc.Linking? ==> pr.path !in pr.visited
    ensures SparesOthers(names, numbers, p, pr, OperateWalk(names, numbers, p, pr))
  {
    hide StaleNumbers;
    hide LinkedExactly;
    var e := OperateWalk(names, numbers, p, pr);
    assert Names(names, Candidate(p), p);
    assert e.names == names || e.names == names[pr.path := p];
    assert forall n <- e.names :: Names(names, n, e.names[n]) || e.names[n] == names[Candidate(p)];
    SameWalkTells(names, numbers, pr, e.names, e.pr);
    hide StaleIds, Tells, Current;
  }

  lemma ConfirmSpares(names: map<Name, Id>, numbers: map<Id, nat>, died: map<Id, nat>, p: Id, pr: Proc)
    requires Undisturbed(names, died, p, pr) && NumbersTell(names, numbers) && Tells(names, numbers, pr)
    requires pr.pc.Confirming?
    ensures SparesOthers(names, numbers, p, pr, OperateWalk(names, numbers, p, pr))
  {
    var seen := pr.pc.seen;
    if pr.pc.observed == None {
      FirstConfirmSpares(names, numbers, p, pr);
    } else {
      var next := Advance(numbers, pr, seen);
      assert pr.pc.observed == Some(seen) && Names(names, pr.path, seen);
      assert pr.pc.observed.value in died;
      AdvanceKeeps(names, numbers, died, p, pr, seen);
      NumberIsNew(names, numbers, died, p, pr, seen);
      LongerWalkTells(names, numbers, pr, next, seen);
      assert OperateWalk(names, numbers, p, pr) == Effect(names, next);
    }
    hide ProcInv, NamesInv, StaleIds, StaleNumbers, NumbersTell, Current, Quiet, Tells;
  }

  lemma FirstConfirmSpares(names: map<Name, Id>, numbers: map<Id, nat>, p: Id, pr: Proc)
    requires Current(names, p, pr) && Tells(names, numbers, pr) && pr.pc.Confirming? && pr.pc.observed == None
    ensures SparesOthers(names, numbers, p, pr, OperateWalk(names, numbers, p, pr))
  {
    var next := pr.(pc := Judging(pr.pc.seen));
    assert OperateWalk(names, numbers, p, pr) == Effect(names, next);
    hide OperateWalk, Current;
    SameWalkTells(names, numbers, pr, names, next);
    hide Tells;
  }

  lemma LongerWalkTells(names: map<Name, Id>, numbers: map<Id, nat>, pr: Proc, next: Proc, seen: Id)
    requires Tells(names, numbers, pr) && NumbersTell(names, numbers) && Names(names, pr.path, seen)
    requires next.stale == pr.stale + [Stale(pr.path, seen)] && next.pc.Linking?
    ensures Tells(names, numbers, next) && StaleIds(pr) <= StaleIds(next)
  {
    assert next.stale[|pr.stale|].id == seen && seen in StaleIds(next);
    assert forall j | 0 <= j < |pr.stale| :: next.stale[j] == pr.stale[j];
    assert StaleIds(pr) <= StaleIds(next);
    forall n | n in names && NumberOf(numbers, names[n]) in StaleNumbers(numbers, next)
      ensures names[n] in StaleIds(next)
    {
      assert NumberOf(numbers, names[n]) == NumberOf(numbers, seen) ==> names[n] == names[pr.path];
      assert
        || NumberOf(numbers, names[n]) in StaleNumbers(numbers, pr)
        || NumberOf(numbers, names[n]) == NumberOf(numbers, seen);
    }
  }

  lemma PromotionSpares(names: map<Name, Id>, numbers: map<Id, nat>, p: Id, pr: Proc)
    requires Names(names, Candidate(p), p) && Tells(names, numbers, pr) && pr.pc.Promoting?
    requires pr.stale != [] && Names(names, Root, pr.stale[0].id)
    ensures SparesOthers(names, numbers, p, pr, OperateTail(names, p, pr))
  {
    var e := OperateTail(names, p, pr);
    assert pr.stale[0].id in StaleIds(pr);
    assert e.names == Rename(names, Candidate(p), Root) && e.pr.stale == pr.stale;
    hide StaleIds, OperateTail;
    assert forall n <- e.names :: Names(names, n, e.names[n]) || e.names[n] == names[Candidate(p)];
    SameWalkTells(names, numbers, pr, e.names, e.pr);
    hide Tells;
  }

  lemma TailSpares(names: map<Name, Id>, numbers: map<Id, nat>, p: Id, pr: Proc)
    requires Names(names, Candidate(p), p) && Tells(names, numbers, pr) && AtTail(pr.pc) && !pr.pc.Promoting?
    ensures SparesOthers(names, numbers, p, pr, OperateTail(names, p, pr))
  {
    hide LinkedExactly;
    var e := OperateTail(names, p, pr);
    assert e.names in {names, names - {Candidate(p)}} && e.pr.stale == pr.stale;
    hide StaleIds, OperateTail;
    assert forall n <- e.names :: Names(names, n, e.names[n]);
    SameWalkTells(names, numbers, pr, e.names, e.pr);
    hide Tells;
  }

  lemma PromotesWalked(names: map<Name, Id>, died: map<Id, nat>, p: Id, pr: Proc)
    requires Ready(names, died, p, pr)
    ensures pr.pc.Promoting? ==> pr.stale != []
  {
  }

  lemma HolderSpares(names: map<Name, Id>, numbers: map<Id, nat>, died: map<Id, nat>, p: Id, pr: Proc)
    requires Undisturbed(names, died, p, pr) && Tells(names, numbers, pr)
    requires (Promoted(pr.pc) || Installed(pr.pc)) && !pr.pc.Owned? && !pr.pc.Releasing?
    ensures SparesOthers(names, numbers, p, pr, OperateHolder(names, p, pr))
  {
    hide StaleNumbers;
    hide LinkedExactly;
    var e := OperateHolder(names, p, pr);
    assert pr.pc.DroppingTail? ==> Names(names, pr.path, p);
    assert pr.pc.DroppingAlias? ==> names[pr.pc.entry] in StaleIds(pr);
    hide Ready, Quiet, StaleIds, Current;
    assert forall n <- e.names :: Names(names, n, e.names[n]);
    SameWalkTells(names, numbers, pr, e.names, e.pr);
    hide Tells;
  }

  lemma GoSpares(names: map<Name, Id>, numbers: map<Id, nat>, died: map<Id, nat>, p: Id, pr: Proc)
    requires Undisturbed(names, died, p, pr) && NumbersTell(names, numbers) && Tells(names, numbers, pr)
    requires pr.pc != Owned && !pr.pc.Creating?
    ensures SparesOthers(names, numbers, p, pr, Operate(names, numbers, p, pr))
  {
    hide Chained, InCrashOrder, LinkedExactly, CanFail;
    if pr.pc.Confirming? {
      ConfirmSpares(names, numbers, died, p, pr);
    } else if pr.pc.CheckingCandidate? || Walking(pr.pc) {
      if pr.pc.CheckingCandidate? {
        CandidateChecksPass(names, p, pr);
      } else if pr.pc.Linking? {
        WalkNeverCycles(died, pr);
      }
      WalkSpares(names, numbers, died, p, pr);
    } else if AtTail(pr.pc) {
      PromotesWalked(names, died, p, pr);
      if pr.pc.Promoting? {
        PromotionSpares(names, numbers, p, pr);
      } else {
        TailSpares(names, numbers, p, pr);
      }
    } else {
      HolderSpares(names, numbers, died, p, pr);
    }
  }

  lemma PickSpares(names: map<Name, Id>, numbers: map<Id, nat>, p: Id, pr: Proc, n: Name)
    requires pr.pc.Sweeping? && Tells(names, numbers, pr)
    ensures SparesOthers(names, numbers, p, pr, Effect(names, Picked(names, numbers, p, pr, n)))
  {
    var next := Picked(names, numbers, p, pr, n);
    assert StaleNumbers(numbers, next) == StaleNumbers(numbers, pr) && StaleIds(next) == StaleIds(pr);
    hide StaleIds, StaleNumbers;
  }

  lemma NothingWalkedTells(names: map<Name, Id>, numbers: map<Id, nat>, pr: Proc)
    requires pr.stale == [] && !pr.pc.DroppingAlias?
    ensures Tells(names, numbers, pr)
  {
  }

  /** One step of `p` alone. */
  ghost predicate StepSpares(s: State, t: State, p: Id) {
    && p in s.procs && p in t.procs
    && (Tells(s.names, s.numbers, s.procs[p]) ==>
          && OnlyStaleGone(s.names, t.names, p, t.procs[p]) && StaleIds(s.procs[p]) <= StaleIds(t.procs[p])
          && Tells(t.names, t.numbers, t.procs[p]))
  }

  lemma GoStepSpares(s: State, p: Id)
    requires OnItsWay(s, p) && s.procs[p].pc != Owned && !s.procs[p].pc.Creating? && Enabled(s, p, Go)
    ensures StepSpares(s, Exec(s, p, Go), p)
  {
    CalmProc(s, p);
    LinkedNumbersTell(s);
    JudgedDead(s, p);
    hide RunInv, ProcInv, NamesInv, NumbersTell, Current, Quiet, InUse, OnlyStaleGone, StaleIds, Swept;
    hide Operate, Tells;
    GoneTo(s, p);
    hide Exec, Enabled;
    if Tells(s.names, s.numbers, s.procs[p]) {
      GoSpares(s.names, s.numbers, s.died, p, s.procs[p]);
    }
  }

  /** The walk so far was one in the names at the start, and it was linked where they end. */
  ghost predicate WalkedIn(names: map<Name, Id>, now: map<Name, Id>, p: Id, pr: Proc) {
    && InPlace(names, pr.stale)
    && (pr.pc.Creating? ==> now == names && pr.stale == [])
    && (pr.pc.CheckingCandidate? || Walking(pr.pc) ==> now == names[Candidate(p) := p])
    && (AtTail(pr.pc) || Promoted(pr.pc) || Installed(pr.pc) ==> EndOf(pr.stale) !in names)
  }

  lemma InPlaceSnoc(names: map<Name, Id>, stale: seq<Stale>, path: Name, id: Id)
    requires InPlace(names, stale) && Names(names, path, id)
    ensures InPlace(names, stale + [Stale(path, id)])
  {
    var longer := stale + [Stale(path, id)];
    assert forall j | 0 <= j < |stale| :: longer[j] == stale[j];
  }

  lemma GoWalks(names: map<Name, Id>, now: map<Name, Id>, numbers: map<Id, nat>, died: map<Id, nat>, p: Id, pr: Proc)
    requires Undisturbed(now, died, p, pr) && !pr.pc.Owned? && !pr.pc.Creating? && WalkedIn(names, now, p, pr)
    ensures var e := Operate(now, numbers, p, pr);
      OnRollback(e.pr.pc) || WalkedIn(names, e.names, p, e.pr)
  {
    hide Ready, Quiet, NamesInv, LinkedExactly, StaleNumbers;
    if Walking(pr.pc) {
      assert pr.path == EndOf(pr.stale) by {
        PathOfWalk(now, died, p, pr);
      }
      if pr.pc.Confirming? && Names(now, pr.path, pr.pc.seen) {
        InPlaceSnoc(names, pr.stale, pr.path, pr.pc.seen);
      }
    }
    hide InPlace;
  }

  lemma PathOfWalk(names: map<Name, Id>, died: map<Id, nat>, p: Id, pr: Proc)
    requires Ready(names, died, p, pr) && Walking(pr.pc)
    ensures pr.path == EndOf(pr.stale)
  {
  }

  ghost predicate StepWalks(names: map<Name, Id>, s: State, t: State, p: Id) {
    && p in s.procs && p in t.procs
    && (WalkedIn(names, s.names, p, s.procs[p]) ==>
      OnRollback(t.procs[p].pc) || WalkedIn(names, t.names, p, t.procs[p]))
  }

  lemma GoStepWalks(names: map<Name, Id>, s: State, p: Id)
    requires OnItsWay(s, p) && s.procs[p].pc != Owned && !s.procs[p].pc.Creating? && Enabled(s, p, Go)
    ensures StepWalks(names, s, Exec(s, p, Go), p)
  {
    CalmProc(s, p);
    JudgedDead(s, p);
    hide RunInv, ProcInv, NamesInv, Current, Quiet, InUse, Swept, Operate, WalkedIn;
    GoneTo(s, p);
    hide Exec, Enabled;
    if WalkedIn(names, s.names, p, s.procs[p]) {
      GoWalks(names, s.names, s.numbers, s.died, p, s.procs[p]);
    }
  }

  lemma PickStepWalks(names: map<Name, Id>, s: State, p: Id, n: Name)
    requires Enabled(s, p, Pick(n)) && s.procs[p].pc.Sweeping?
    ensures StepWalks(names, s, Exec(s, p, Pick(n)), p)
  {
    hide InUse, StaleNumbers, InPlace;
  }

  lemma CreateStepWalks(names: map<Name, Id>, s: State, p: Id, number: nat)
    requires RunInv(s) && Enabled(s, p, Create(number)) && s.procs[p].pc.Creating?
    ensures StepWalks(names, s, Exec(s, p, Create(number)), p)
  {
    CreationIs(s, p, number);
    hide RunInv, InUse, Exec, InPlace;
  }

  lemma GoneTo(s: State, p: Id)
    requires Enabled(s, p, Go)
    ensures var t, e := Exec(s, p, Go), Operate(s.names, s.numbers, p, s.procs[p]);
      t.names == e.names && t.numbers == s.numbers && p in t.procs && t.procs[p] == e.pr
  {
    hide Operate;
  }

  lemma PickStepSpares(s: State, p: Id, n: Name)
    requires Enabled(s, p, Pick(n)) && s.procs[p].pc.Sweeping?
    ensures StepSpares(s, Exec(s, p, Pick(n)), p)
  {
    hide InUse, OnlyStaleGone, StaleIds, Tells, Picked;
    if Tells(s.names, s.numbers, s.procs[p]) {
      PickSpares(s.names, s.numbers, p, s.procs[p], n);
    }
  }

  lemma CreateStepSpares(s: State, p: Id, number: nat)
    requires Calm(s, p) && Enabled(s, p, Create(number))
    ensures StepSpares(s, Exec(s, p, Create(number)), p)
  {
    hide Exec, Grounded;
    CalmProc(s, p);
    assert s.procs[p].stale == [];
    CreationIs(s, p, number);
    hide RunInv, ProcInv, NamesInv, InUse, Tells;
    NothingWalkedTells(s.names[Candidate(p) := p], s.numbers[p := number], s.procs[p].(pc := CheckingCandidate));
  }

  lemma SparesOn(names: map<Name, Id>, s: State, t: State, p: Id)
    requires StepSpares(s, t, p) && OnlyStaleGone(names, s.names, p, s.procs[p]) &&
      Tells(s.names, s.numbers, s.procs[p])
    requires forall n <- names :: names[n] != p
    ensures OnlyStaleGone(names, t.names, p, t.procs[p]) && Tells(t.names, t.numbers, t.procs[p])
  {
    hide Tells, StaleIds;
  }

  ghost predicate OnItsWay(s: State, p: Id) {
    Calm(s, p) && Swept(s.names, s.procs[p])
  }

  method StepAlone(ghost names: map<Name, Id>, s: State, p: Id) returns (t: State)
    requires OnItsWay(s, p) && s.procs[p].pc != Owned
    ensures StepOf(s, p, t) && OnItsWay(t, p) && Alive(t, p) && t.died == s.died
    ensures Closer(s.died, s.procs[p], t.procs[p]) && StepSpares(s, t, p) && StepWalks(names, s, t, p)
  {
    hide RunInv, ProcInv, Current, Quiet, Swept, Closer, Exec, Free, StepSpares, StepWalks;
    var pr := s.procs[p];
    if pr.pc.Creating? {
      var number := UnusedNumber(s.numbers.Values);
      UnusedIsFree(s, number);
      CreateAlone(s, p, number);
      CreateStepSpares(s, p, number);
      CreateStepWalks(names, s, p, number);
      t := Exec(s, p, Create(number));
    } else if pr.pc.Sweeping? && pr.pc.todo != {} {
      var n :| n in pr.pc.todo;
      PickAlone(s, p, n);
      PickStepSpares(s, p, n);
      PickStepWalks(names, s, p, n);
      t := Exec(s, p, Pick(n));
    } else {
      GoAlone(s, p);
      GoStepSpares(s, p);
      GoStepWalks(names, s, p);
      t := Exec(s, p, Go);
    }
  }

  lemma UnusedIsFree(s: State, number: nat)
    requires number !in s.numbers.Values
    ensures Free(s, number)
  {
  }

  lemma LinkedNumbersTell(s: State)
    requires RunInv(s)
    ensures NumbersTell(s.names, s.numbers)
  {
    forall n, m | n in s.names && m in s.names && s.names[n] != s.names[m]
      ensures NumberOf(s.numbers, s.names[n]) != NumberOf(s.numbers, s.names[m])
    {
      assert Linked(s.names, s.names[n]) && Linked(s.names, s.names[m]);
      assert InUse(s, s.names[n]) && InUse(s, s.names[m]);
    }
  }

  lemma StartsCalm(s: State, p: Id)
    requires RunInv(s) && Alive(s, p) && s.procs[p].pc.Creating? && forall n <- s.names :: s.names[n] in s.died
    ensures Calm(s, p) && Swept(s.names, s.procs[p])
  {
    assert Grounded(s.names, s.died, p, s.procs[p]);
    assert Release(p) !in s.names;
    hide NamesInv, InUse, Chained, InCrashOrder;
  }

  lemma EndsOwning(s: State, p: Id)
    requires Calm(s, p) && Swept(s.names, s.procs[p]) && s.procs[p].pc == Owned
    ensures Names(s.names, Root, p) && forall n <- s.names :: s.names[n] == p ==> n == Root
    ensures forall n <- s.names :: s.names[n] !in StaleIds(s.procs[p])
  {
    CalmProc(s, p);
    hide RunInv, WalkInv, NamesInv, CanFail;
  }

  ghost predicate LeadsTo(run: seq<State>, p: Id, s: State, t: State) {
    run != [] && run[0] == s && run[|run| - 1] == t && StepsOf(run, p)
  }

  lemma LeadsOn(run: seq<State>, p: Id, s: State, t: State, next: State)
    requires LeadsTo(run, p, s, t) && StepOf(t, p, next)
    ensures LeadsTo(run + [next], p, s, next)
  {
    RunGrows(run, p, next);
  }

  lemma CloserIsLess(died: map<Id, nat>, now: Proc, next: Proc)
    requires Closer(died, now, next)
    ensures
      || Phase(next.pc) < Phase(now.pc)
      || (Phase(next.pc) == Phase(now.pc) && died.Keys - StaleIds(next) < died.Keys - StaleIds(now))
      || (Phase(next.pc) == Phase(now.pc) && died.Keys - StaleIds(next) == died.Keys - StaleIds(now) &&
            Detail(next.pc) < Detail(now.pc))
  {
    hide Phase, Detail;
  }

  lemma StillOnItsWay(s: State, p: Id)
    requires OnItsWay(s, p)
    ensures !OnRollback(s.procs[p].pc)
  {
    hide RunInv, ProcInv;
  }

  /** The dead claims from the root on: each is at the successor name of the one before, and the last has none. */
  ghost predicate IsWholeChain(names: map<Name, Id>, claims: seq<Stale>) {
    && (forall j {:trigger claims[j].path} | 0 <= j < |claims| ::
          && Names(names, claims[j].path, claims[j].id)
          && claims[j].path == if j == 0 then Root else Next(claims[j - 1].id))
    && (if claims == [] then Root else Next(claims[|claims| - 1].id)) !in names
  }

  lemma WholeChain(names: map<Name, Id>, s: State, p: Id)
    requires OnItsWay(s, p) && s.procs[p].pc.Owned? && WalkedIn(names, s.names, p, s.procs[p])
    ensures IsWholeChain(names, s.procs[p].stale)
  {
    CalmProc(s, p);
    hide RunInv, LinksInv, NamesInv;
  }

  method FinishAlone(s: State, p: Id) returns (t: State, ghost run: seq<State>)
    requires OnItsWay(s, p) && Alive(s, p) && Tells(s.names, s.numbers, s.procs[p])
    requires WalkedIn(s.names, s.names, p, s.procs[p])
    requires forall n <- s.names :: s.names[n] != p
    ensures OnItsWay(t, p) && Alive(t, p) && t.procs[p].pc == Owned && t.died == s.died && LeadsTo(run, p, s, t)
    ensures OnlyStaleGone(s.names, t.names, p, t.procs[p]) && WalkedIn(s.names, t.names, p, t.procs[p])
  {
    t := s;
    run := [s];
    assert LeadsTo(run, p, s, t);
    assert OnlyStaleGone(s.names, t.names, p, t.procs[p]);
    hide OnItsWay, LeadsTo, StepOf, Phase, Detail, StaleIds, Closer, OnlyStaleGone, StepSpares, Tells, WalkedIn;
    while t.procs[p].pc != Owned
      invariant OnItsWay(t, p) && Alive(t, p) && t.died == s.died && LeadsTo(run, p, s, t)
      invariant OnlyStaleGone(s.names, t.names, p, t.procs[p]) && Tells(t.names, t.numbers, t.procs[p])
      invariant WalkedIn(s.names, t.names, p, t.procs[p])
      decreases Phase(t.procs[p].pc), t.died.Keys - StaleIds(t.procs[p]), Detail(t.procs[p].pc)
    {
      var next := StepAlone(s.names, t, p);
      StillOnItsWay(next, p);
      CloserIsLess(t.died, t.procs[p], next.procs[p]);
      SparesOn(s.names, t, next, p);
      LeadsOn(run, p, s, t, next);
      run, t := run + [next], next;
    }
  }

  /** From every state that can be reached, an acquisition that runs alone, with exact verdicts on dead owners and
      no failing operation, ends owning the root, with every name of the dead claims from the old root on removed,
      and no other name changed. */
  method AcquireAlone(ghost history: seq<State>, s: State, p: Id) returns (t: State, ghost run: seq<State>)
    requires Run(history) && s == history[|history| - 1]
    requires Alive(s, p) && s.procs[p].pc.Creating?
    requires forall n <- s.names :: s.names[n] in s.died
    ensures Alive(t, p) && t.procs[p].pc == Owned && Names(t.names, Root, p) && t.died == s.died
    ensures IsWholeChain(s.names, t.procs[p].stale)
    ensures t.names == (map n | n in s.names && s.names[n] !in StaleIds(t.procs[p]) :: s.names[n])[Root := p]
    ensures LeadsTo(run, p, s, t)
  {
    EveryRunKeeps(history);
    StartsCalm(s, p);
    NothingWalkedTells(s.names, s.numbers, s.procs[p]);
    assert WalkedIn(s.names, s.names, p, s.procs[p]);
    hide RunInv, Current, Quiet, Swept, StaleIds, LeadsTo, OnlyStaleGone, Tells, WalkedIn, IsWholeChain;
    t, run := FinishAlone(s, p);
    EndsOwning(t, p);
    WholeChain(s.names, t, p);
    NamesAtTheEnd(s.names, t.names, p, t.procs[p]);
  }

  lemma NamesAtTheEnd(names: map<Name, Id>, names': map<Name, Id>, p: Id, pr: Proc)
    requires OnlyStaleGone(names, names', p, pr) && forall n <- names :: names[n] != p
    requires forall n <- names' :: names'[n] !in StaleIds(pr) && (names'[n] == p ==> n == Root)
    requires Names(names', Root, p)
    ensures names' == (map n | n in names && names[n] !in StaleIds(pr) :: names[n])[Root := p]
  {
    hide StaleIds;
  }

  // ---------------------------------------------------------------------------------------------
  // An undisturbed release

  /** The names without those of a file. */
  function NamesWithout(names: map<Name, Id>, p: Id): map<Name, Id> {
    map n | n in names && names[n] != p :: names[n]
  }

  lemma ReleaseOperations(names: map<Name, Id>, numbers: map<Id, nat>, p: Id, pr: Proc)
    requires pr.pc.Owned? && pr.path == Root && Names(names, Root, p) && Release(p) !in names
    requires forall n <- names :: names[n] == p ==> n == Root
    ensures var moved := (names - {Root})[Release(p) := p];
      && Operate(names, numbers, p, pr) == Effect(names, pr.(pc := Releasing))
      && Operate(names, numbers, p, pr.(pc := Releasing)) == Effect(moved, pr.(pc := DroppingRelease))
      && Operate(moved, numbers, p, pr.(pc := DroppingRelease)) == Effect(NamesWithout(names, p), pr.(pc := Done))
  {
    var moved := (names - {Root})[Release(p) := p];
    ExactLinks(names, p, {Root});
    ExactLinks(moved, p, {Release(p)});
    assert moved - {Release(p)} == NamesWithout(names, p);
    hide LinkedExactly, OperateWalk, OperateTail;
  }

  lemma OwnerHasRoot(s: State, p: Id)
    requires Inv(s) && Alive(s, p) && s.procs[p].pc.Owned?
    ensures s.procs[p].path == Root && Names(s.names, Root, p) && Release(p) !in s.names
    ensures forall n <- s.names :: s.names[n] == p ==> n == Root
  {
    ProcOf(s, p);
    hide Inv, WalkInv, NamesInv;
  }

  /** The state after `p` has come to `pr`. */
  function At(s: State, names: map<Name, Id>, p: Id, pr: Proc): State {
    s.(names := names, procs := s.procs[p := pr])
  }

  /** One more operation of `p`, which is not waiting for a listing or a verdict. */
  lemma OneOperation(s: State, p: Id, names: map<Name, Id>, pr: Proc, names': map<Name, Id>, pr': Proc)
    requires Alive(s, p) && !pr.pc.Done? && !pr.pc.Creating? && !pr.pc.Judging?
    requires !pr.pc.Sweeping? && !pr.pc.Cleaning?
    requires Operate(names, s.numbers, p, pr) == Effect(names', pr')
    ensures StepOf(At(s, names, p, pr), p, At(s, names', p, pr'))
  {
    hide Operate, InUse;
    assert Enabled(At(s, names, p, pr), p, Go);
    assert Exec(At(s, names, p, pr), p, Go) == At(s, names', p, pr');
  }

  lemma ReleaseSteps(s: State, p: Id) returns (run: seq<State>)
    requires Inv(s) && Alive(s, p) && s.procs[p].pc.Owned?
    ensures LeadsTo(run, p, s, At(s, NamesWithout(s.names, p), p, s.procs[p].(pc := Done)))
    ensures Names(s.names, Root, p)
  {
    hide RunInv;
    var pr := s.procs[p];
    var moved := (s.names - {Root})[Release(p) := p];
    OwnerHasRoot(s, p);
    hide Inv, Operate, StepOf, LeadsTo;
    ReleaseOperations(s.names, s.numbers, p, pr);
    OneOperation(s, p, s.names, pr, s.names, pr.(pc := Releasing));
    OneOperation(s, p, s.names, pr.(pc := Releasing), moved, pr.(pc := DroppingRelease));
    OneOperation(s, p, moved, pr.(pc := DroppingRelease), NamesWithout(s.names, p), pr.(pc := Done));
    assert At(s, s.names, p, pr) == s;
    hide At, NamesWithout;
    var releasing := At(s, s.names, p, pr.(pc := Releasing));
    var dropping := At(s, moved, p, pr.(pc := DroppingRelease));
    var done := At(s, NamesWithout(s.names, p), p, pr.(pc := Done));
    ThreeSteps(s, releasing, dropping, done, p);
    run := [s, releasing, dropping, done];
  }

  /** In every sparing run, the release of a claim that is owned, if it is not disturbed, removes the root and with
      it the last name of the owner's file, and changes no other name. */
  method ReleaseAlone(ghost history: seq<State>, s: State, p: Id) returns (t: State, ghost run: seq<State>)
    requires Sparing(history) && s == history[|history| - 1]
    requires Alive(s, p) && s.procs[p].pc == Owned
    ensures Alive(t, p) && t.procs[p].pc == Done && t.died == s.died
    ensures forall q <- s.procs | q != p :: q in t.procs && t.procs[q] == s.procs[q]
    ensures t.names == map n | n in s.names && s.names[n] != p :: s.names[n]
    ensures Names(s.names, Root, p) && Root !in t.names
    ensures LeadsTo(run, p, s, t)
  {
    RunKeeps(history);
    run := ReleaseSteps(s, p);
    t := At(s, NamesWithout(s.names, p), p, s.procs[p].(pc := Done));
    hide Inv, LeadsTo;
  }

  lemma LeadsThrough(a: seq<State>, b: seq<State>, p: Id, s: State, t: State, u: State)
    requires LeadsTo(a, p, s, t) && LeadsTo(b, p, t, u)
    ensures LeadsTo(a + b[1..], p, s, u)
  {
    var run := a + b[1..];
    hide StepOf;
    forall i | 0 <= i < |run| - 1 ensures StepOf(run[i], p, run[i + 1]) {
      if i < |a| - 1 {
        assert StepOf(a[i], p, a[i + 1]);
      } else {
        assert StepOf(b[i - |a| + 1], p, b[i - |a| + 2]);
        assert run[i] == b[i - |a| + 1];
      }
    }
  }

  lemma RunContinues(history: seq<State>, run: seq<State>, p: Id, s: State, t: State)
    requires Run(history) && history[|history| - 1] == s && LeadsTo(run, p, s, t)
    ensures var longer := history + run[1..]; Run(longer) && longer[|longer| - 1] == t
  {
    var longer := history + run[1..];
    hide Enabled, Exec;
    forall i | 0 <= i < |longer| - 1 ensures Step(longer[i], longer[i + 1]) {
      if i < |history| - 1 {
        assert Step(history[i], history[i + 1]);
      } else {
        assert StepOf(run[i - |history| + 1], p, run[i - |history| + 2]);
        assert longer[i] == run[i - |history| + 1];
      }
    }
  }

  lemma SparingIsRun(history: seq<State>)
    requires Sparing(history)
    ensures Run(history)
  {
    hide Spares, Enabled, Exec;
    forall i | 0 <= i < |history| - 1 ensures Step(history[i], history[i + 1]) {
      assert SparingStep(history[i], history[i + 1]);
    }
  }

  /** The claim goes from one attempt to another: when the owner has released it, an acquisition succeeds. */
  method HandOver(ghost history: seq<State>, s: State, p: Id, q: Id)
    returns (freed: State, t: State, ghost release: seq<State>, ghost acquisition: seq<State>)
    requires Sparing(history) && s == history[|history| - 1]
    requires Alive(s, p) && s.procs[p].pc == Owned && Alive(s, q) && s.procs[q].pc.Creating?
    requires forall n <- s.names :: s.names[n] == p || s.names[n] in s.died
    ensures LeadsTo(release, p, s, freed) && LeadsTo(acquisition, q, freed, t)
    ensures Alive(freed, p) && freed.procs[p].pc == Done && Root !in freed.names
    ensures Alive(t, q) && t.procs[q].pc == Owned && Names(t.names, Root, q)
  {
    hide Inv, RunInv, Sparing, StepOf;
    freed, release := ReleaseAlone(history, s, p);
    SparingIsRun(history);
    RunContinues(history, release, p, s, freed);
    hide Run;
    t, acquisition := AcquireAlone(history + release[1..], freed, q);
  }

  lemma ThreeSteps(s: State, t: State, u: State, v: State, p: Id)
    requires StepOf(s, p, t) && StepOf(t, p, u) && StepOf(u, p, v)
    ensures LeadsTo([s, t, u, v], p, s, v)
  {
    hide StepOf;
    var run := [s, t, u, v];
    assert run[0] == s && run[1] == t && run[2] == u && run[3] == v;
  }

  // ---------------------------------------------------------------------------------------------
  // An undisturbed rollback

  /** A name that the rollback removes: its own file's, unless another attempt has taken it for the file that it
      releases, and renamed it. */
  predicate Removes(names: map<Name, Id>, p: Id, n: Name) {
    Names(names, n, p) && !n.Release?
  }

  /** What is left of the names when the rollback has come to `t`. */
  ghost predicate OnlyOwnGone(s: State, t: State, p: Id) {
    && Alive(t, p) && t.died == s.died
    && (forall n <- t.names :: n in s.names && t.names[n] == s.names[n])
    && (forall n <- s.names | !Removes(s.names, p, n) :: n in t.names)
  }

  lemma UndoGoesOn(s: State, t: State, next: State, p: Id)
    requires OnlyOwnGone(s, t, p) && Alive(next, p) && next.died == t.died
    requires Undoes(t.names, p, t.procs[p].pc, Effect(next.names, next.procs[p]))
    ensures OnlyOwnGone(s, next, p)
  {
  }

  /** In every run, the rollback of a failed acquisition, if it is not disturbed, removes the names of its file and
      changes no other name; what may be left is a name that another attempt's release has given the file, in a run
      in which an unlink of a "duplicate" has taken what others rely on. */
  method RollBack(ghost history: seq<State>, s: State, p: Id) returns (t: State, ghost run: seq<State>)
    requires Run(history) && s == history[|history| - 1]
    requires Alive(s, p) && s.procs[p].pc == Cleaning(s.procs[p].linked)
    ensures Alive(t, p) && t.procs[p].pc == Done && t.died == s.died
    ensures t.names == map n | n in s.names && !Removes(s.names, p, n) :: s.names[n]
    ensures Sparing(history) ==> forall n <- t.names :: t.names[n] != p
    ensures LeadsTo(run, p, s, t)
  {
    EveryRunKeeps(history);
    assert Grounded(s.names, s.died, p, s.procs[p]);
    if Sparing(history) {
      RunKeeps(history);
      NothingRenamed(s, p);
    }
    t, run := FinishRollBack(s, p);
  }

  lemma NothingRenamed(s: State, p: Id)
    requires Inv(s) && Alive(s, p) && s.procs[p].pc == Cleaning(s.procs[p].linked)
    ensures forall n | Names(s.names, n, p) :: Removes(s.names, p, n)
  {
    ProcOf(s, p);
    hide Inv, WalkInv, NamesInv;
  }

  method FinishRollBack(s: State, p: Id) returns (t: State, ghost run: seq<State>)
    requires Alive(s, p) && PlaceInv(s.procs[p]) && Traced(s.names, p, s.procs[p])
    requires s.procs[p].pc == Cleaning(s.procs[p].linked)
    requires Candidate(p) in s.names ==> s.names[Candidate(p)] == p
    ensures Alive(t, p) && t.procs[p].pc == Done && t.died == s.died
    ensures t.names == map n | n in s.names && !Removes(s.names, p, n) :: s.names[n]
    ensures LeadsTo(run, p, s, t)
  {
    t := s;
    run := [s];
    assert LeadsTo(run, p, s, t);
    assert Undoing(s.names, p, s.procs[p].pc);
    hide LeadsTo, StepOf, Detail, PlaceInv, Traced;
    while t.procs[p].pc != Done
      invariant OnlyOwnGone(s, t, p) && Undoing(t.names, p, t.procs[p].pc) && LeadsTo(run, p, s, t)
      decreases if t.procs[p].pc.Done? then 0 else if t.procs[p].pc.CleaningCandidate? then 1 else 2,
        Detail(t.procs[p].pc)
    {
      var next := UndoStep(t, p);
      UndoGoesOn(s, t, next, p);
      LeadsOn(run, p, s, t, next);
      run, t := run + [next], next;
    }
    OnlyTheseGone(s, t, p);
  }

  lemma OnlyTheseGone(s: State, t: State, p: Id)
    requires OnlyOwnGone(s, t, p) && forall n :: !Removes(t.names, p, n)
    ensures t.names == map n | n in s.names && !Removes(s.names, p, n) :: s.names[n]
  {
    assert forall n <- t.names :: Removes(s.names, p, n) ==> Removes(t.names, p, n);
  }

  /** The names of the failed attempt that the rest of its rollback will visit. */
  ghost predicate Undoing(names: map<Name, Id>, p: Id, pc: Pc) {
    match pc
    case Cleaning(todo) =>
      (forall n <- todo :: !n.Release?) && forall n | Removes(names, p, n) :: n in todo || n == Candidate(p)
    case DroppingLink(entry, todo) =>
      && Removes(names, p, entry) && (forall n <- todo :: !n.Release?)
      && forall n | Removes(names, p, n) :: n in todo || n == entry || n == Candidate(p)
    case CleaningCandidate => forall n | Removes(names, p, n) :: n == Candidate(p)
    case Done => forall n :: !Removes(names, p, n)
    case _ => false
  }

  /** Closer to the end of the rollback. */
  predicate FurtherUndone(before: Pc, after: Pc) {
    if after.Done? then before.CleaningCandidate?
    else if after.CleaningCandidate? then !before.CleaningCandidate?
    else !before.CleaningCandidate? && Detail(after) < Detail(before)
  }

  ghost predicate Undoes(names: map<Name, Id>, p: Id, pc: Pc, e: Effect) {
    && Undoing(e.names, p, e.pr.pc) && FurtherUndone(pc, e.pr.pc)
    && (forall n <- e.names :: Names(names, n, e.names[n]))
    && (forall n <- names | !Removes(names, p, n) :: n in e.names)
  }

  lemma PickUndoes(names: map<Name, Id>, numbers: map<Id, nat>, p: Id, pr: Proc, n: Name)
    requires pr.pc.Cleaning? && n in pr.pc.todo && Undoing(names, p, pr.pc)
    ensures Undoes(names, p, pr.pc, Effect(names, Picked(names, numbers, p, pr, n)))
  {
  }

  lemma GoUndoes(names: map<Name, Id>, p: Id, pr: Proc)
    requires Undoing(names, p, pr.pc) && pr.pc != Done && (pr.pc.Cleaning? ==> pr.pc.todo == {})
    requires Candidate(p) in names ==> names[Candidate(p)] == p
    ensures Undoes(names, p, pr.pc, OperateRollback(names, p, pr))
  {
    var names' := OperateRollback(names, p, pr).names;
    assert forall n :: Removes(names', p, n) ==> Removes(names, p, n);
  }

  method UndoStep(s: State, p: Id) returns (t: State)
    requires Alive(s, p) && Undoing(s.names, p, s.procs[p].pc) && s.procs[p].pc != Done
    requires Candidate(p) in s.names ==> s.names[Candidate(p)] == p
    ensures StepOf(s, p, t) && Alive(t, p) && t.died == s.died
    ensures Undoes(s.names, p, s.procs[p].pc, Effect(t.names, t.procs[p]))
  {
    hide OperateRollback, Picked, Undoes, InUse, Detail;
    var pr := s.procs[p];
    if pr.pc.Cleaning? && pr.pc.todo != {} {
      var n :| n in pr.pc.todo;
      PickUndoes(s.names, s.numbers, p, pr, n);
      t := Exec(s, p, Pick(n));
    } else {
      GoUndoes(s.names, p, pr);
      t := Exec(s, p, Go);
    }
  }

  /** In every run, whatever makes an acquisition fail, an operation that throws, a live owner or a check inside a
      step, it starts the rollback that `RollBack` completes: with every path still to visit, among them all names
      of the file but its candidate, unless another attempt's release has renamed it.  An exception and a live
      owner always do so, and no other way leads to a rollback or to its end. */
  lemma FailureStartsRollBack(run: seq<State>, p: Id, a: Action)
    requires Run(run)
    requires var s := run[|run| - 1]; Enabled(s, p, a) && Alive(s, p) && Acquiring(s.procs[p].pc)
    ensures a.Throw? || a.SayAlive? ==> OnRollback(Exec(run[|run| - 1], p, a).procs[p].pc)
    ensures var t := Exec(run[|run| - 1], p, a);
      OnRollback(t.procs[p].pc) ==>
        && Run(run + [t]) && Alive(t, p) && t.procs[p].pc == Cleaning(t.procs[p].linked)
        && forall n | Removes(t.names, p, n) :: n in t.procs[p].linked || n == Candidate(p)
  {
    hide InUse;
    var s := run[|run| - 1];
    var t := Exec(s, p, a);
    EveryRunKeeps(run);
    FailsWithAll(s, p, a);
    RunStepKeeps(s, p, a);
    assert Alive(t, p) ==> Grounded(t.names, t.died, p, t.procs[p]);
    hide Exec, Enabled, RunInv, WalkInv, PlaceInv;
    var longer := run + [t];
    assert Step(s, t);
    forall i | 0 <= i < |longer| - 1 ensures Step(longer[i], longer[i + 1]) {
      assert i < |run| - 1 ==> Step(run[i], run[i + 1]);
    }
  }

  predicate Acquiring(pc: Pc) {
    !OnRollback(pc) && !pc.Owned? && !pc.Releasing? && !pc.DroppingRelease?
  }

  lemma FailsWithAll(s: State, p: Id, a: Action)
    requires Enabled(s, p, a) && Alive(s, p) && Acquiring(s.procs[p].pc)
    ensures var t := Exec(s, p, a);
      && p in t.procs && (a.Throw? || a.SayAlive? ==> OnRollback(t.procs[p].pc))
      && (OnRollback(t.procs[p].pc) ==> Alive(t, p) && t.procs[p].pc == Cleaning(t.procs[p].linked))
  {
    hide LinkedExactly, Rename;
  }

  // ---------------------------------------------------------------------------------------------
  // An acquisition that meets a live owner

  /** What the attempt does up to the verdict. */
  lemma RefusalOperations(names: map<Name, Id>, numbers: map<Id, nat>, p: Id, q: Id, pr: Proc)
    requires pr.pc.CheckingCandidate? && Names(names, Candidate(p), p) && Names(names, Root, q)
    requires forall n <- names :: names[n] == p ==> n == Candidate(p)
    ensures var met := Restart(pr).(visited := {Root});
      && Operate(names, numbers, p, pr) == Effect(names, Restart(pr))
      && Operate(names, numbers, p, Restart(pr)) == Effect(names, met.(pc := Opening(None)))
      && Operate(names, numbers, p, met.(pc := Opening(None))) == Effect(names, met.(pc := Confirming(None, q)))
      && Operate(names, numbers, p, met.(pc := Confirming(None, q))) == Effect(names, met.(pc := Judging(q)))
  {
    ExactLinks(names, p, {Candidate(p)});
    hide LinkedExactly, OperateTail, OperateHolder, OperateRollback;
  }

  lemma ComesToVerdict(s: State, p: Id, q: Id) returns (run: seq<State>)
    requires Alive(s, p) && s.procs[p].pc.CheckingCandidate? && Names(s.names, Candidate(p), p)
    requires Names(s.names, Root, q) && forall n <- s.names :: s.names[n] == p ==> n == Candidate(p)
    ensures LeadsTo(run, p, s, At(s, s.names, p, Restart(s.procs[p]).(pc := Judging(q), visited := {Root})))
  {
    var pr, names := s.procs[p], s.names;
    var met := Restart(pr).(visited := {Root});
    RefusalOperations(names, s.numbers, p, q, pr);
    hide Operate, StepOf, LeadsTo;
    OneOperation(s, p, names, pr, names, Restart(pr));
    OneOperation(s, p, names, Restart(pr), names, met.(pc := Opening(None)));
    OneOperation(s, p, names, met.(pc := Opening(None)), names, met.(pc := Confirming(None, q)));
    OneOperation(s, p, names, met.(pc := Confirming(None, q)), names, met.(pc := Judging(q)));
    assert At(s, names, p, pr) == s;
    hide At;
    var a, b := At(s, names, p, Restart(pr)), At(s, names, p, met.(pc := Opening(None)));
    var c, d := At(s, names, p, met.(pc := Confirming(None, q))), At(s, names, p, met.(pc := Judging(q)));
    ThreeSteps(s, a, b, c, p);
    LeadsOn([s, a, b, c], p, s, c, d);
    run := [s, a, b, c] + [d];
  }

  lemma Creates(s: State, p: Id, number: nat)
    requires RunInv(s) && Alive(s, p) && s.procs[p].pc.Creating? && Free(s, number)
    requires forall n <- s.names :: s.names[n] != p
    ensures Enabled(s, p, Create(number))
    ensures var t := Exec(s, p, Create(number));
      && StepOf(s, p, t) && Alive(t, p) && t.procs[p] == s.procs[p].(pc := CheckingCandidate) && RunInv(t)
      && t.names == s.names[Candidate(p) := p] && t.died == s.died
  {
    assert Enabled(s, p, Create(number));
    CreationIs(s, p, number);
    RunStepKeeps(s, p, Create(number));
    hide RunInv, Free, InUse;
  }

  /** The verdict is told, and the rollback starts. */
  lemma IsRefused(s: State, p: Id)
    requires RunInv(s) && Alive(s, p) && s.procs[p].pc.Judging?
    ensures Enabled(s, p, SayAlive)
    ensures var t := Exec(s, p, SayAlive);
      && StepOf(s, p, t) && RunInv(t) && Alive(t, p) && t.procs[p].pc == Cleaning(t.procs[p].linked)
      && t.names == s.names && t.died == s.died
  {
    hide RunInv;
    assert Enabled(s, p, SayAlive);
    RunStepKeeps(s, p, SayAlive);
    hide InUse;
  }

  lemma {:induction false} StepsKeepRunInv(run: seq<State>, p: Id, s: State, t: State)
    requires LeadsTo(run, p, s, t) && RunInv(s)
    ensures RunInv(t)
    decreases |run|
  {
    if |run| > 1 {
      var before := run[..|run| - 1];
      assert StepOf(run[|run| - 2], p, run[|run| - 1]);
      forall i | 0 <= i < |before| - 1 ensures StepOf(before[i], p, before[i + 1]) {
        assert StepOf(run[i], p, run[i + 1]);
      }
      StepsKeepRunInv(before, p, s, run[|run| - 2]);
      var a :| Enabled(run[|run| - 2], p, a) && t == Exec(run[|run| - 2], p, a);
      hide RunInv, Enabled, Exec;
      RunStepKeeps(run[|run| - 2], p, a);
    }
  }

  lemma NothingOfNewcomer(s: State, p: Id)
    requires Inv(s) && Alive(s, p) && s.procs[p].pc.Creating?
    ensures (forall n <- s.names :: s.names[n] != p) && Candidate(p) !in s.names
  {
    hide CanFail, InCrashOrder, Chained;
    ProcOf(s, p);
    OwnCandidate(s.names, s.died, p);
    hide Inv, WalkInv, NamesInv;
  }

  lemma OwnCandidate(names: map<Name, Id>, died: map<Id, nat>, p: Id)
    requires NamesInv(names, died)
    ensures Candidate(p) in names ==> names[Candidate(p)] == p
  {
  }

  /** While another live attempt owns the claim, an acquisition that is not disturbed, with exact verdicts, ends
      without the claim and leaves all names as they were. */
  method RefusedAlone(ghost history: seq<State>, s: State, p: Id, q: Id) returns (t: State, ghost run: seq<State>)
    requires Sparing(history) && s == history[|history| - 1]
    requires Alive(s, q) && s.procs[q].pc == Owned
    requires Alive(s, p) && s.procs[p].pc.Creating?
    ensures Alive(t, p) && t.procs[p].pc == Done && t.names == s.names && t.died == s.died
    ensures LeadsTo(run, p, s, t)
  {
    RunKeeps(history);
    OwnerHasRoot(s, q);
    NothingOfNewcomer(s, p);
    var number := UnusedNumber(s.numbers.Values);
    UnusedIsFree(s, number);
    t, run := FinishRefusal(s, p, q, number);
  }

  method FinishRefusal(s: State, p: Id, q: Id, number: nat) returns (t: State, ghost run: seq<State>)
    requires RunInv(s) && Alive(s, p) && s.procs[p].pc.Creating? && Free(s, number)
    requires (forall n <- s.names :: s.names[n] != p) && Candidate(p) !in s.names && Names(s.names, Root, q)
    ensures Alive(t, p) && t.procs[p].pc == Done && t.names == s.names && t.died == s.died
    ensures LeadsTo(run, p, s, t)
  {
    hide RunInv, Free, LeadsTo, StepOf, Exec, Enabled;
    Creates(s, p, number);
    var created := Exec(s, p, Create(number));
    ghost var walk := ComesToVerdict(created, p, q);
    var met := Restart(created.procs[p]).(pc := Judging(q), visited := {Root});
    var judging := At(created, created.names, p, met);
    StepsKeepRunInv(walk, p, created, judging);
    IsRefused(judging, p);
    var refused := Exec(judging, p, SayAlive);
    GroundOf(refused, p);
    ghost var undoing;
    t, undoing := FinishRollBack(refused, p);
    OnlyCandidateGone(s.names, t.names, p);
    run := Refusal(s, created, judging, refused, t, p, walk, undoing);
  }

  lemma GroundOf(s: State, p: Id)
    requires RunInv(s) && Alive(s, p)
    ensures WalkInv(s.died, s.procs[p]) && PlaceInv(s.procs[p]) && Traced(s.names, p, s.procs[p])
    ensures Candidate(p) in s.names ==> s.names[Candidate(p)] == p
  {
    assert Grounded(s.names, s.died, p, s.procs[p]);
    assert NamesInv(s.names, s.died);
  }

  lemma OnlyCandidateGone(names: map<Name, Id>, left: map<Name, Id>, p: Id)
    requires (forall n <- names :: names[n] != p) && Candidate(p) !in names
    requires var with := names[Candidate(p) := p]; left == map n | n in with && !Removes(with, p, n) :: with[n]
    ensures left == names
  {
  }

  lemma Refusal(
    s: State, created: State, judging: State, refused: State, t: State, p: Id, walk: seq<State>, undoing: seq<State>)
    returns (run: seq<State>)
    requires StepOf(s, p, created) && LeadsTo(walk, p, created, judging) && StepOf(judging, p, refused)
    requires LeadsTo(undoing, p, refused, t)
    ensures LeadsTo(run, p, s, t)
  {
    hide StepOf;
    assert LeadsTo([s], p, s, s);
    LeadsOn([s], p, s, s, created);
    LeadsThrough([s] + [created], walk, p, s, created, judging);
    run := [s] + [created] + walk[1..];
    LeadsOn(run, p, s, judging, refused);
    run := run + [refused];
    LeadsThrough(run, undoing, p, s, refused, t);
    run := run + undoing[1..];
  }
}

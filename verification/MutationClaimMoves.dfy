/** What attempts at the mutation claim do in more than one step: the moves of which runs are made. */
module MutationClaimMoves {
  import opened Common
  import opened MutationClaim
  import opened MutationClaimAlone

  // ---------------------------------------------------------------------------------------------
  // Runs in pieces

  /** Any step but the unlink of a "duplicate". */
  ghost predicate PlainStep(s: State, t: State) {
    exists p, a :: Enabled(s, p, a) && t == Exec(s, p, a) && (a == Go ==> !s.procs[p].pc.DroppingDuplicate?)
  }

  ghost predicate Steps(run: seq<State>) {
    run != [] && forall i | 0 <= i < |run| - 1 :: PlainStep(run[i], run[i + 1])
  }

  ghost predicate Reaches(s: State, t: State) {
    exists run :: Steps(run) && run[0] == s && run[|run| - 1] == t
  }

  lemma Then(s: State, t: State, u: State)
    requires Reaches(s, t) && Reaches(t, u)
    ensures Reaches(s, u)
  {
    var a :| Steps(a) && a[0] == s && a[|a| - 1] == t;
    var b :| Steps(b) && b[0] == t && b[|b| - 1] == u;
    var run := a + b[1..];
    forall i | 0 <= i < |run| - 1 ensures PlainStep(run[i], run[i + 1]) {
      if i < |a| - 1 {
        assert PlainStep(a[i], a[i + 1]);
      } else {
        assert PlainStep(b[i - |a| + 1], b[i - |a| + 2]);
        assert run[i] == b[i - |a| + 1];
      }
    }
    assert Steps(run);
  }

  lemma Acts(s: State, p: Id, a: Action)
    requires Enabled(s, p, a) && (a == Go ==> !s.procs[p].pc.DroppingDuplicate?)
    ensures Reaches(s, Exec(s, p, a))
  {
    var run := [s, Exec(s, p, a)];
    assert PlainStep(run[0], run[1]);
    assert Steps(run);
  }

  lemma ReachesKeeps(s: State, t: State)
    requires Reaches(s, t)
    ensures RunInv(s) ==> RunInv(t)
    ensures Inv(s) ==> Inv(t)
  {
    var run :| Steps(run) && run[0] == s && run[|run| - 1] == t;
    StepsKeep(run);
  }

  lemma {:induction false} StepsKeep(run: seq<State>)
    requires Steps(run)
    ensures RunInv(run[0]) ==> RunInv(run[|run| - 1])
    ensures Inv(run[0]) ==> Inv(run[|run| - 1])
  {
    hide RunInv, Inv;
    if |run| > 1 {
      var before, s := run[..|run| - 1], run[|run| - 2];
      assert Steps(before);
      StepsKeep(before);
      assert PlainStep(run[|run| - 2], run[|run| - 1]);
      var p, a :| Enabled(s, p, a) && run[|run| - 1] == Exec(s, p, a) &&
        (a == Go ==> !s.procs[p].pc.DroppingDuplicate?);
      hide Exec, Enabled;
      if RunInv(s) {
        RunStepKeeps(s, p, a);
      }
      if Inv(s) {
        StepKeeps(s, p, a);
      }
    }
  }

  /** An operation runs, and what follows does not wait for a listing or for a verdict. */
  predicate Runs(died: map<Id, nat>, pc: Pc) {
    && !pc.Done? && !pc.Creating? && !pc.DroppingDuplicate? && (pc.Judging? ==> pc.seen in died)
    && (pc.Sweeping? || pc.Cleaning? ==> pc.todo == {})
  }

  /** One more operation of `p`. */
  lemma On(s: State, p: Id, names: map<Name, Id>, pr: Proc, names': map<Name, Id>, pr': Proc)
    requires Alive(s, p) && Reaches(s, At(s, names, p, pr)) && Runs(s.died, pr.pc)
    requires Operate(names, s.numbers, p, pr) == Effect(names', pr')
    ensures Reaches(s, At(s, names', p, pr'))
  {
    var t := At(s, names, p, pr);
    hide Operate, InUse, Reaches;
    Acts(t, p, Go);
    assert Exec(t, p, Go) == At(s, names', p, pr');
    Then(s, t, At(s, names', p, pr'));
  }

  lemma Stays(s: State, p: Id)
    requires p in s.procs
    ensures Reaches(s, At(s, s.names, p, s.procs[p]))
  {
    assert At(s, s.names, p, s.procs[p]) == s;
    assert Steps([s]);
  }

  // ---------------------------------------------------------------------------------------------
  // What an attempt does, in larger steps

  function Walker(path: Name, visited: set<Name>, stale: seq<Stale>): Proc {
    Proc(Linking, path, visited, stale, {})
  }

  lemma Starts(s: State, p: Id, number: nat)
    requires p !in s.procs && p !in s.died && s.numbers.Keys <= s.procs.Keys && Free(s, number)
    requires Candidate(p) !in s.names && forall n <- s.names :: s.names[n] != p
    ensures Reaches(s, s.(
      names := s.names[Candidate(p) := p],
      numbers := s.numbers[p := number],
      procs := s.procs[p := Walker(Root, {}, [])]))
  {
    var s2 := Created(s, p, number);
    hide Exec, Enabled, InUse, LinkedExactly, Reaches;
    Stays(s2, p);
    ExactLinks(s2.names, p, {Candidate(p)});
    On(s2, p, s2.names, s2.procs[p], s2.names, Walker(Root, {}, []));
    var t := At(s2, s2.names, p, Walker(Root, {}, []));
    assert t == s.(
      names := s.names[Candidate(p) := p],
      numbers := s.numbers[p := number],
      procs := s.procs[p := Walker(Root, {}, [])]);
    Then(s, s2, t);
  }

  lemma Created(s: State, p: Id, number: nat) returns (t: State)
    requires p !in s.procs && p !in s.died && s.numbers.Keys <= s.procs.Keys && Free(s, number)
    ensures Reaches(s, t)
    ensures t == s.(
      names := s.names[Candidate(p) := p],
      numbers := s.numbers[p := number],
      procs := s.procs[p := Proc(CheckingCandidate, Root, {}, [], {})])
  {
    var s1 := Exec(s, p, Spawn);
    Acts(s, p, Spawn);
    SpawnUses(s, p);
    hide InUse, Reaches;
    Acts(s1, p, Create(number));
    t := Exec(s1, p, Create(number));
    CreationIs(s1, p, number);
    Then(s, s1, t);
  }

  lemma Dies(s: State, p: Id)
    requires Alive(s, p)
    ensures Reaches(s, s.(died := s.died[p := s.clock], clock := s.clock + 1))
  {
    Acts(s, p, Die);
  }

  /** It is reading the path, and all that it has read there is `c`. */
  predicate HasRead(pc: Pc, c: Id) {
    match pc
    case Opening(observed) => observed == None || observed == Some(c)
    case Confirming(observed, seen) => seen == c && (observed == None || observed == Some(c))
    case Judging(seen) => seen == c
    case _ => false
  }

  /** The second read agrees with the first, and in between the owner is judged dead. */
  lemma ReadsOn(s: State, p: Id, c: Id)
    requires Alive(s, p) && HasRead(s.procs[p].pc, c) && Names(s.names, s.procs[p].path, c) && c in s.died
    ensures Reaches(s, At(s, s.names, p, s.procs[p].(pc := Confirming(Some(c), c))))
  {
    hide OperateHolder, OperateRollback, LinkedExactly, Reaches;
    var pr, names, left := s.procs[p], s.names, Detail(s.procs[p].pc);
    Stays(s, p);
    hide At, OperateTail;
    if left == 4 {
      On(s, p, names, pr, names, pr.(pc := Confirming(None, c)));
    }
    if left >= 3 {
      On(s, p, names, pr.(pc := Confirming(None, c)), names, pr.(pc := Judging(c)));
    }
    if left >= 2 {
      On(s, p, names, pr.(pc := Judging(c)), names, pr.(pc := Opening(Some(c))));
    }
    if left >= 1 {
      On(s, p, names, pr.(pc := Opening(Some(c))), names, pr.(pc := Confirming(Some(c), c)));
    }
  }

  /** The path is taken. */
  lemma Confirms(s: State, p: Id, c: Id)
    requires Alive(s, p) && s.procs[p].pc.Linking? && s.procs[p].path !in s.procs[p].visited
    requires Names(s.names, s.procs[p].path, c) && c in s.died
    ensures var pr := s.procs[p];
      Reaches(s, At(s, s.names, p, pr.(pc := Confirming(Some(c), c), visited := pr.visited + {pr.path})))
  {
    var pr := s.procs[p].(pc := Opening(None), visited := s.procs[p].visited + {s.procs[p].path});
    Stays(s, p);
    hide Reaches, LinkedExactly, OperateTail, OperateHolder, OperateRollback;
    On(s, p, s.names, s.procs[p], s.names, pr);
    var t := At(s, s.names, p, pr);
    ReadsOn(t, p, c);
    var u := At(s, s.names, p, pr.(pc := Confirming(Some(c), c)));
    assert At(t, s.names, p, pr.(pc := Confirming(Some(c), c))) == u;
    Then(s, t, u);
  }

  /** The claim is remembered. */
  function Remembered(pr: Proc, c: Id): Proc {
    pr.(pc := Linking, stale := pr.stale + [Stale(pr.path, c)], path := Next(c))
  }

  lemma TakesIn(s: State, p: Id, pr: Proc, c: Id)
    requires Alive(s, p) && Reaches(s, At(s, s.names, p, pr.(pc := Confirming(Some(c), c))))
    requires Names(s.names, pr.path, c) && NumberOf(s.numbers, c) !in StaleNumbers(s.numbers, pr)
    ensures Reaches(s, At(s, s.names, p, Remembered(pr, c)))
  {
    var confirming := pr.(pc := Confirming(Some(c), c));
    SameNumbersOfStale(s.numbers, pr, confirming);
    hide Reaches, At, LinkedExactly, StaleNumbers, OperateTail, OperateHolder, OperateRollback;
    On(s, p, s.names, confirming, s.names, Remembered(pr, c));
  }

  function Walked(pr: Proc, c: Id): Proc {
    Remembered(pr.(visited := pr.visited + {pr.path}), c)
  }

  lemma Walks(s: State, p: Id, c: Id)
    requires Alive(s, p) && s.procs[p].pc.Linking? && s.procs[p].path !in s.procs[p].visited
    requires Names(s.names, s.procs[p].path, c) && c in s.died
    requires NumberOf(s.numbers, c) !in StaleNumbers(s.numbers, s.procs[p])
    ensures Reaches(s, At(s, s.names, p, Walked(s.procs[p], c)))
  {
    var pr := s.procs[p].(visited := s.procs[p].visited + {s.procs[p].path});
    Confirms(s, p, c);
    SameNumbersOfStale(s.numbers, pr, s.procs[p]);
    hide Reaches, At, StaleNumbers;
    TakesIn(s, p, pr, c);
  }

  /** The claim has the number of one that was met before, and is unlinked. */
  lemma DropsDuplicate(s: State, p: Id, c: Id) returns (t: State)
    requires Alive(s, p) && s.procs[p].pc.Linking? && s.procs[p].path !in s.procs[p].visited
    requires Names(s.names, s.procs[p].path, c) && c in s.died
    requires NumberOf(s.numbers, c) in StaleNumbers(s.numbers, s.procs[p])
    ensures Reaches(s, t) && Enabled(t, p, Go) && t == At(s, s.names, p, t.procs[p]) && t.procs[p].pc.DroppingDuplicate?
    ensures t.procs[p].path == s.procs[p].path
    ensures Exec(t, p, Go) == At(s, s.names - {s.procs[p].path}, p, Restart(s.procs[p]))
  {
    var pr := s.procs[p];
    var seen := pr.(visited := pr.visited + {pr.path});
    var confirming := seen.(pc := Confirming(Some(c), c));
    Confirms(s, p, c);
    SameNumbersOfStale(s.numbers, pr, confirming);
    hide Reaches, At, LinkedExactly, StaleNumbers, OperateTail, OperateHolder, OperateRollback;
    On(s, p, s.names, confirming, s.names, seen.(pc := CheckingDuplicate(c)));
    On(s, p, s.names, seen.(pc := CheckingDuplicate(c)), s.names, seen.(pc := DroppingDuplicate));
    t := At(s, s.names, p, seen.(pc := DroppingDuplicate));
    Unlinked(s, p, seen);
  }

  lemma Unlinked(s: State, p: Id, seen: Proc)
    requires Alive(s, p) && seen.path in s.names && seen.pc.Linking?
    ensures var t := At(s, s.names, p, seen.(pc := DroppingDuplicate));
      Enabled(t, p, Go) && Exec(t, p, Go) == At(s, s.names - {seen.path}, p, Restart(seen))
  {
    hide LinkedExactly, InUse;
  }

  predicate OnlyCandidate(names: map<Name, Id>, p: Id) {
    Names(names, Candidate(p), p) && forall n <- names :: names[n] == p ==> n == Candidate(p)
  }

  lemma RootOperations(names: map<Name, Id>, numbers: map<Id, nat>, p: Id, linked: Proc, owned: map<Name, Id>)
    requires Root !in names && OnlyCandidate(names, p) && owned == (names - {Candidate(p)})[Root := p]
    requires linked == Proc(CheckingLink, Root, {Root}, [], {Root})
    ensures Operate(names, numbers, p, Walker(Root, {}, [])) == Effect(names[Root := p], linked)
    ensures Operate(names[Root := p], numbers, p, linked) == Effect(names[Root := p], linked.(pc := DroppingCandidate))
    ensures Operate(names[Root := p], numbers, p, linked.(pc := DroppingCandidate))
      == Effect(owned, linked.(pc := FinalCheck))
    ensures Operate(owned, numbers, p, linked.(pc := FinalCheck)) == Effect(owned, linked.(pc := Owned, linked := {}))
  {
    hide StaleNumbers, StalePaths, StaleIds;
    ExactLinks(names[Root := p], p, {Candidate(p), Root});
    ExactLinks(owned, p, {Root});
    hide LinkedExactly;
    assert names[Root := p] - {Candidate(p)} == owned;
  }

  /** The empty root is linked, and owned. */
  lemma TakesRoot(s: State, p: Id)
    requires Alive(s, p) && s.procs[p] == Walker(Root, {}, []) && Root !in s.names && OnlyCandidate(s.names, p)
    ensures Reaches(s, At(s, (s.names - {Candidate(p)})[Root := p], p, Proc(Owned, Root, {Root}, [], {})))
  {
    hide Rename;
    hide Reaches;
    hide InUse, OperateWalk, LinkedExactly;
    var linked := Proc(CheckingLink, Root, {Root}, [], {Root});
    var names := s.names[Root := p];
    var owned := (s.names - {Candidate(p)})[Root := p];
    RootOperations(s.names, s.numbers, p, linked, owned);
    Stays(s, p);
    hide At, Operate;
    On(s, p, s.names, s.procs[p], names, linked);
    On(s, p, names, linked, names, linked.(pc := DroppingCandidate));
    On(s, p, names, linked.(pc := DroppingCandidate), owned, linked.(pc := FinalCheck));
    On(s, p, owned, linked.(pc := FinalCheck), owned, linked.(pc := Owned, linked := {}));
  }

  /** It has linked the end of a walk from the root that is there, and its checks pass. */
  predicate TailIsSound(names: map<Name, Id>, p: Id, pr: Proc) {
    && AtTail(pr.pc) && !pr.pc.DroppingCandidate? && pr.stale != [] && Names(names, Root, pr.stale[0].id)
    && (pr.pc.CheckingLink? ==> LinkedExactly(names, p, {Candidate(p), pr.path}))
    && (pr.pc.ConfirmingRoot? ==> pr.pc.seen == pr.stale[0].id)
  }

  lemma ComesToPromotion(s: State, p: Id)
    requires Alive(s, p) && TailIsSound(s.names, p, s.procs[p])
    ensures Reaches(s, At(s, s.names, p, s.procs[p].(pc := Promoting)))
  {
    hide OperateHolder, OperateRollback, LinkedExactly, Reaches;
    var pr, names, pc := s.procs[p], s.names, s.procs[p].pc;
    Stays(s, p);
    hide At, OperateWalk;
    if pc.CheckingLink? {
      On(s, p, names, pr, names, pr.(pc := OpeningRoot));
    }
    if pc.CheckingLink? || pc.OpeningRoot? {
      On(s, p, names, pr.(pc := OpeningRoot), names, pr.(pc := ConfirmingRoot(names[Root])));
    }
    if !pc.Promoting? {
      On(s, p, names, pr.(pc := ConfirmingRoot(names[Root])), names, pr.(pc := Promoting));
    }
  }

  function TailTaken(pr: Proc): Proc {
    pr.(pc := Promoting, visited := pr.visited + {pr.path}, linked := pr.linked + {pr.path})
  }

  /** The end of the chain is linked, and the root found as it was. */
  lemma TakesTail(s: State, p: Id)
    requires Alive(s, p) && s.procs[p].pc.Linking? && s.procs[p].path !in s.procs[p].visited
    requires s.procs[p].path !in s.names && s.procs[p].path.Next? && OnlyCandidate(s.names, p)
    requires s.procs[p].stale != [] && Names(s.names, Root, s.procs[p].stale[0].id)
    ensures Reaches(s, At(s, s.names[s.procs[p].path := p], p, TailTaken(s.procs[p])))
  {
    var pr := TailTaken(s.procs[p]).(pc := CheckingLink);
    var names := s.names[pr.path := p];
    var t, u := At(s, names, p, pr), At(s, names, p, pr.(pc := Promoting));
    LinksTail(s, p);
    ExactLinks(names, p, {Candidate(p), pr.path});
    hide Reaches, LinkedExactly;
    ComesToPromotion(t, p);
    assert At(t, names, p, pr.(pc := Promoting)) == u;
    Then(s, t, u);
  }

  lemma LinksTail(s: State, p: Id)
    requires Alive(s, p) && s.procs[p].pc.Linking? && s.procs[p].path !in s.procs[p].visited
    requires s.procs[p].path !in s.names && Candidate(p) in s.names
    ensures Reaches(s, At(s, s.names[s.procs[p].path := p], p, TailTaken(s.procs[p]).(pc := CheckingLink)))
  {
    Stays(s, p);
    hide Reaches, At, LinkedExactly, OperateTail, OperateHolder, OperateRollback;
    On(s, p, s.names, s.procs[p], s.names[s.procs[p].path := p], TailTaken(s.procs[p]).(pc := CheckingLink));
  }

  function Renamed(pr: Proc): Proc {
    pr.(pc := CheckingPromotion, linked := pr.linked + {Root})
  }

  lemma Promotes(s: State, p: Id)
    requires Alive(s, p) && s.procs[p].pc.Promoting? && Names(s.names, Candidate(p), p) && !Names(s.names, Root, p)
    ensures Reaches(s, At(s, (s.names - {Candidate(p)})[Root := p], p, Renamed(s.procs[p])))
  {
    Stays(s, p);
    hide Reaches, At;
    On(s, p, s.names, s.procs[p], (s.names - {Candidate(p)})[Root := p], Renamed(s.procs[p]));
  }

  /** What the sweep of these numbers leaves of the names to visit. */
  function Unswept(names: map<Name, Id>, numbers: map<Id, nat>, pr: Proc, todo: set<Name>): map<Name, Id> {
    map n | n in names && !(n in todo && NumberOf(numbers, names[n]) in StaleNumbers(numbers, pr)) :: names[n]
  }

  lemma {:induction false} Sweeps(s: State, p: Id)
    requires Alive(s, p) && s.procs[p].pc.Sweeping?
    ensures var pr := s.procs[p];
      Reaches(s, At(s, Unswept(s.names, s.numbers, pr, pr.pc.todo), p, pr.(pc := FinalCheck)))
    decreases |s.procs[p].pc.todo|
  {
    hide Reaches;
    var pr, todo := s.procs[p], s.procs[p].pc.todo;
    if todo == {} {
      assert Unswept(s.names, s.numbers, pr, todo) == s.names;
      Stays(s, p);
      hide At, LinkedExactly, OperateWalk, OperateTail, OperateRollback;
      On(s, p, s.names, pr, s.names, pr.(pc := FinalCheck));
    } else {
      var n :| n in todo;
      var names := Visits(s, p, n);
      var rest := pr.(pc := Sweeping(todo - {n}));
      var t := At(s, names, p, rest);
      Sweeps(t, p);
      SameNumbersOfStale(s.numbers, pr, rest);
      hide StaleNumbers;
      assert Unswept(names, s.numbers, rest, todo - {n}) == Unswept(s.names, s.numbers, pr, todo);
      var final := At(s, Unswept(s.names, s.numbers, pr, todo), p, pr.(pc := FinalCheck));
      assert At(t, Unswept(names, s.numbers, rest, todo - {n}), p, rest.(pc := FinalCheck)) == final;
      Then(s, t, final);
    }
  }

  /** One entry of the sweep. */
  lemma Visits(s: State, p: Id, n: Name) returns (names: map<Name, Id>)
    requires Alive(s, p) && s.procs[p].pc.Sweeping? && n in s.procs[p].pc.todo
    ensures names == Unswept(s.names, s.numbers, s.procs[p], {n})
    ensures Reaches(s, At(s, names, p, s.procs[p].(pc := Sweeping(s.procs[p].pc.todo - {n}))))
  {
    var pr := s.procs[p];
    var rest := pr.(pc := Sweeping(pr.pc.todo - {n}));
    names := Unswept(s.names, s.numbers, pr, {n});
    Acts(s, p, Pick(n));
    var picked := Picked(s.names, s.numbers, p, pr, n);
    assert Exec(s, p, Pick(n)) == At(s, s.names, p, picked);
    hide Reaches, StaleNumbers, LinkedExactly, InUse, OperateWalk, OperateTail, OperateRollback;
    if picked.pc.DroppingAlias? {
      assert names == s.names - {n};
      On(s, p, s.names, picked, names, rest);
    } else {
      assert names == s.names;
    }
  }

  function Owning(pr: Proc): Proc {
    pr.(pc := Owned, path := Root, linked := {})
  }

  /** From the rename on, the attempt ends owning the claim. */
  lemma Finishes(s: State, p: Id)
    requires Alive(s, p) && s.procs[p].pc.CheckingPromotion? && s.procs[p].path.Next?
    requires Names(s.names, Root, p) && Names(s.names, s.procs[p].path, p)
    requires forall n <- s.names :: s.names[n] == p ==> n == Root || n == s.procs[p].path
    ensures var pr, names := s.procs[p], s.names - {s.procs[p].path};
      Reaches(s, At(s, Unswept(names, s.numbers, pr, names.Keys - {Root}), p, Owning(pr)))
  {
    hide LinkedExactly;
    var pr := s.procs[p];
    var names := s.names - {pr.path};
    var listing := pr.(pc := ListingAliases, linked := pr.linked - {pr.path}, path := Root);
    var sweeping := listing.(pc := Sweeping(names.Keys - {Root}));
    var left := Unswept(names, s.numbers, pr, names.Keys - {Root});
    HolderOperations(s.names, s.numbers, p, pr, listing);
    LastCheck(s.names, s.numbers, p, pr, listing.(pc := FinalCheck));
    Stays(s, p);
    SweepsFrom(s, p, names, pr, sweeping);
    hide Reaches, At, Operate, Unswept;
    On(s, p, s.names, pr, s.names, pr.(pc := DroppingTail));
    On(s, p, s.names, pr.(pc := DroppingTail), names, listing);
    On(s, p, names, listing, names, sweeping);
    Then(s, At(s, names, p, sweeping), At(s, left, p, listing.(pc := FinalCheck)));
    On(s, p, left, listing.(pc := FinalCheck), left, Owning(pr));
  }

  lemma HolderOperations(names: map<Name, Id>, numbers: map<Id, nat>, p: Id, pr: Proc, listing: Proc)
    requires pr.pc.CheckingPromotion? && pr.path.Next? && Names(names, Root, p) && Names(names, pr.path, p)
    requires forall n <- names :: names[n] == p ==> n == Root || n == pr.path
    requires listing == pr.(pc := ListingAliases, linked := pr.linked - {pr.path}, path := Root)
    ensures Operate(names, numbers, p, pr) == Effect(names, pr.(pc := DroppingTail))
    ensures var rest := names - {pr.path};
      && Operate(names, numbers, p, pr.(pc := DroppingTail)) == Effect(rest, listing)
      && Operate(rest, numbers, p, listing) == Effect(rest, listing.(pc := Sweeping(rest.Keys - {Root})))
  {
    ExactLinks(names, p, {Root, pr.path});
    ExactLinks(names - {pr.path}, p, {Root});
    hide LinkedExactly, OperateWalk, OperateTail, OperateRollback;
  }

  lemma LastCheck(names: map<Name, Id>, numbers: map<Id, nat>, p: Id, pr: Proc, last: Proc)
    requires last.pc.FinalCheck? && last.path == Root && Names(names, Root, p) && pr.path.Next?
    requires forall n <- names :: names[n] == p ==> n == Root || n == pr.path
    ensures var rest := names - {pr.path}; var left := Unswept(rest, numbers, pr, rest.Keys - {Root});
      Operate(left, numbers, p, last) == Effect(left, last.(pc := Owned, linked := {}))
  {
    var rest := names - {pr.path};
    ExactLinks(Unswept(rest, numbers, pr, rest.Keys - {Root}), p, {Root});
    hide LinkedExactly, OperateWalk, OperateTail, OperateRollback;
  }

  lemma SweepsFrom(s: State, p: Id, names: map<Name, Id>, pr: Proc, sweeping: Proc)
    requires Alive(s, p) && sweeping.pc.Sweeping? && sweeping.stale == pr.stale
    ensures Reaches(At(s, names, p, sweeping),
              At(s, Unswept(names, s.numbers, pr, sweeping.pc.todo), p, sweeping.(pc := FinalCheck)))
  {
    var t := At(s, names, p, sweeping);
    Sweeps(t, p);
    SameNumbersOfStale(s.numbers, pr, sweeping);
    hide Reaches, StaleNumbers;
    var left := Unswept(names, s.numbers, pr, sweeping.pc.todo);
    assert left == Unswept(names, s.numbers, sweeping, sweeping.pc.todo);
    assert At(t, left, p, sweeping.(pc := FinalCheck)) == At(s, left, p, sweeping.(pc := FinalCheck));
  }
}

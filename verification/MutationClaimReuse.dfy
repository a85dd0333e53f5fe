/** Where the mutation claim fails: a contender takes a claim for a duplicate of one that it remembers, and unlinks
    it from under another attempt.  Which unlinks let two live attempts own the claim, and a run in which it
    happens, because a freed inode number is given to a new claim file. */
module MutationClaimReuse {
  import opened MutationClaim
  import opened MutationClaimAlone
  import opened MutationClaimMoves
  import opened MutationClaimRuns

  // ---------------------------------------------------------------------------------------------
  // Unlinks of a "duplicate" that lose the claim

  predicate Owns(s: State, p: Id) {
    Alive(s, p) && s.procs[p].pc == Owned
  }

  ghost predicate OwnedTwice(s: State) {
    exists p, q :: p != q && Owns(s, p) && Owns(s, q)
  }

  lemma Twice(s: State, p: Id, q: Id)
    requires p != q && Owns(s, p) && Owns(s, q)
    ensures OwnedTwice(s)
  {
  }

  /** All other attempts are dead. */
  predicate Lone(s: State, r: Id) {
    Alive(s, r) && forall q <- s.procs | q != r :: q in s.died
  }

  lemma {:induction false} OthersDie(s: State, r: Id) returns (t: State)
    requires Alive(s, r)
    ensures Reaches(s, t) && Lone(t, r) && t.names == s.names && t.numbers == s.numbers && t.procs == s.procs
    ensures s.died.Keys <= t.died.Keys
    decreases s.procs.Keys - s.died.Keys
  {
    Stays(s, r);
    t := s;
    if q :| q in s.procs && q != r && q !in s.died {
      var next := s.(died := s.died[q := s.clock], clock := s.clock + 1);
      Dies(s, q);
      assert q in s.procs.Keys - s.died.Keys && q !in s.procs.Keys - next.died.Keys;
      t := OthersDie(next, r);
      hide Reaches;
      Then(s, next, t);
    }
  }

  lemma {:induction false} Unused(ids: set<nat>) returns (unused: nat)
    ensures forall i <- ids :: i < unused
  {
    if i :| i in ids {
      unused := Unused(ids - {i});
      assert forall j <- ids :: j == i || j in ids - {i};
      unused := if unused <= i then i + 1 else unused;
    } else {
      unused := 0;
    }
  }

  /** A new attempt, with a new number. */
  lemma IsBorn(s: State) returns (h: Id, t: State)
    requires RunInv(s)
    ensures h !in s.procs && Reaches(s, t) && OnlyCandidate(t.names, h) && h in t.numbers && h !in t.died
    ensures t.numbers[h] !in s.numbers.Values
    ensures t == s.(
      names := s.names[Candidate(h) := h],
      numbers := s.numbers[h := t.numbers[h]],
      procs := s.procs[h := Walker(Root, {}, [])])
  {
    hide Reaches, Free, RunInv;
    h := Unused(s.procs.Keys);
    var number := Unused(s.numbers.Values);
    UnusedIsFree(s, number);
    NothingOf(s, h);
    KeysOf(s);
    Starts(s, h, number);
    t := s.(
      names := s.names[Candidate(h) := h],
      numbers := s.numbers[h := number],
      procs := s.procs[h := Walker(Root, {}, [])]);
  }

  lemma KeysOf(s: State)
    requires RunInv(s)
    ensures s.numbers.Keys <= s.procs.Keys && s.died.Keys <= s.procs.Keys
  {
  }

  /** The claims of a walk have different numbers, and are at different paths. */
  ghost predicate Apart(numbers: map<Id, nat>, stale: seq<Stale>) {
    forall i, j {:trigger stale[i].id, stale[j].id} | 0 <= i < j < |stale| ::
      stale[i].path != stale[j].path && NumberOf(numbers, stale[i].id) != NumberOf(numbers, stale[j].id)
  }

  lemma InPlaceApart(names: map<Name, Id>, numbers: map<Id, nat>, died: map<Id, nat>, stale: seq<Stale>)
    requires Chained(stale) && InCrashOrder(died, stale) && InPlace(names, stale) && NumbersTell(names, numbers)
    ensures Apart(numbers, stale)
  {
    forall i, j | 0 <= i < j < |stale|
      ensures stale[i].path != stale[j].path && NumberOf(numbers, stale[i].id) != NumberOf(numbers, stale[j].id)
    {
      assert died[stale[i].id] < died[stale[j].id];
      assert Names(names, stale[i].path, stale[i].id) && Names(names, stale[j].path, stale[j].id);
    }
  }

  /** It has come as far as the first `k` claims. */
  function Follower(stale: seq<Stale>, k: nat): Proc
    requires k <= |stale|
  {
    Walker(EndOf(stale[..k]), set j | 0 <= j < k :: stale[j].path, stale[..k])
  }

  lemma FollowsOn(stale: seq<Stale>, k: nat)
    requires Chained(stale) && k < |stale|
    ensures Walked(Follower(stale, k), stale[k].id) == Follower(stale, k + 1)
    ensures Follower(stale, k).path == stale[k].path
  {
    hide Chained, StaleNumbers;
    EndBefore(stale, k);
    assert stale[..k] + [stale[k]] == stale[..k + 1];
  }

  lemma NotMet(numbers: map<Id, nat>, stale: seq<Stale>, k: nat)
    requires Apart(numbers, stale) && k < |stale|
    ensures NumberOf(numbers, stale[k].id) !in StaleNumbers(numbers, Follower(stale, k))
    ensures stale[k].path !in Follower(stale, k).visited
  {
  }

  lemma {:induction false} Follows(s: State, h: Id, stale: seq<Stale>, k: nat)
    requires Alive(s, h) && s.procs[h] == Walker(Root, {}, [])
    requires k <= |stale| && Chained(stale) && AllDead(s.died, stale) && Apart(s.numbers, stale)
    requires forall j {:trigger stale[j].path} | 0 <= j < k :: Names(s.names, stale[j].path, stale[j].id)
    ensures Reaches(s, At(s, s.names, h, Follower(stale, k)))
  {
    hide Apart, AllDead;
    if k == 0 {
      Stays(s, h);
      assert Follower(stale, 0) == Walker(Root, {}, []);
    } else {
      Follows(s, h, stale, k - 1);
      FollowsOn(stale, k - 1);
      NotMet(s.numbers, stale, k - 1);
      DeadAt(s.died, stale, k - 1);
      FollowsOne(s, h, Follower(stale, k - 1), stale[k - 1].id);
    }
  }

  lemma FollowsOne(s: State, h: Id, pr: Proc, c: Id)
    requires Alive(s, h) && Reaches(s, At(s, s.names, h, pr)) && pr.pc.Linking? && pr.path !in pr.visited
    requires Names(s.names, pr.path, c) && c in s.died && NumberOf(s.numbers, c) !in StaleNumbers(s.numbers, pr)
    ensures Reaches(s, At(s, s.names, h, Walked(pr, c)))
  {
    var t, u := At(s, s.names, h, pr), At(s, s.names, h, Walked(pr, c));
    hide Reaches, StaleNumbers, Walked;
    Walks(t, h, c);
    assert At(t, s.names, h, Walked(pr, c)) == u;
    Then(s, t, u);
  }

  /** The first `k` claims of a walk from the root are in place, and there is nothing behind them. */
  ghost predicate EndsAt(s: State, stale: seq<Stale>, k: nat) {
    && 0 < k <= |stale| && Chained(stale) && AllDead(s.died, stale) && Apart(s.numbers, stale)
    && (forall j {:trigger stale[j].path} | 0 <= j < k :: Names(s.names, stale[j].path, stale[j].id))
    && EndOf(stale[..k]) !in s.names
  }

  /** Then a new attempt comes there. */
  lemma NewcomerFollows(s: State, stale: seq<Stale>, k: nat) returns (h: Id, t: State)
    requires RunInv(s) && EndsAt(s, stale, k)
    ensures h !in s.procs && h !in t.died && Reaches(s, t) && OnlyCandidate(t.names, h)
    ensures h in t.numbers && t.numbers[h] !in s.numbers.Values && Candidate(h) !in s.names
    ensures t == s.(
      names := s.names[Candidate(h) := h],
      numbers := s.numbers[h := t.numbers[h]],
      procs := s.procs[h := Follower(stale, k)])
  {
    var born;
    h, born := IsBorn(s);
    NothingOf(s, h);
    StillEnds(s, born, h, stale, k);
    Follows(born, h, stale, k);
    t := At(born, born.names, h, Follower(stale, k));
    hide Reaches, RunInv, EndsAt, Follower;
    Then(s, born, t);
  }

  /** It links there, and is about to rename over the root. */
  lemma NewcomerLinks(s: State, stale: seq<Stale>, k: nat) returns (h: Id, t: State)
    requires RunInv(s) && EndsAt(s, stale, k)
    ensures h !in s.procs && Alive(t, h) && Reaches(s, t) && AtPromotion(t.names, h, t.procs[h])
    ensures t.procs[h].path == EndOf(stale[..k]) && t.procs[h].stale == stale[..k]
    ensures t.procs == s.procs[h := t.procs[h]] && t.died == s.died
    ensures t.names == s.names[Candidate(h) := h][EndOf(stale[..k]) := h]
    ensures forall q, n | q != h :: Names(t.names, n, q) == Names(s.names, n, q)
    ensures h in t.numbers && t.numbers[h] !in s.numbers.Values && t.numbers == s.numbers[h := t.numbers[h]]
  {
    var there;
    h, there := NewcomerFollows(s, stale, k);
    EndIsNew(s, stale, k);
    hide Reaches, RunInv, EndsAt, EndOf;
    TakesTail(there, h);
    var pr := there.procs[h];
    t := At(there, there.names[pr.path := h], h, TailTaken(pr));
    Then(s, there, t);
  }

  lemma StillEnds(s: State, t: State, h: Id, stale: seq<Stale>, k: nat)
    requires RunInv(s) && EndsAt(s, stale, k) && h !in s.procs
    requires t.names == s.names[Candidate(h) := h] && t.died == s.died && h in t.numbers
    requires t.numbers == s.numbers[h := t.numbers[h]]
    ensures EndsAt(t, stale, k)
  {
    forall j | 0 <= j < |stale| ensures NumberOf(t.numbers, stale[j].id) == NumberOf(s.numbers, stale[j].id) {
      assert stale[j].id in s.died;
    }
    hide InUse, NamesInv;
  }

  lemma EndIsNew(s: State, stale: seq<Stale>, k: nat)
    requires EndsAt(s, stale, k)
    ensures var pr := Follower(stale, k);
      pr.path !in pr.visited && pr.path.Next? && pr.stale != [] && Names(s.names, Root, pr.stale[0].id)
  {
    assert stale[0].path == Root;
    forall j | 0 <= j < k ensures stale[j].path != EndOf(stale[..k]) {
      assert Names(s.names, stale[j].path, stale[j].id);
    }
  }

  /** It is about to rename over the root, and its checks will pass. */
  predicate AtPromotion(names: map<Name, Id>, p: Id, pr: Proc) {
    && pr.pc.Promoting? && pr.path.Next? && Names(names, Candidate(p), p) && Names(names, pr.path, p)
    && forall n <- names | names[n] == p :: n == Candidate(p) || n == pr.path
  }

  /** It comes to own the claim, whoever else is there; names of a file with a number of its own stay, if not at the
      root. */
  lemma ComesToOwn(s: State, p: Id) returns (t: State)
    requires Alive(s, p) && AtPromotion(s.names, p, s.procs[p])
    ensures Reaches(s, t) && Owns(t, p) && t == At(s, t.names, p, t.procs[p])
    ensures forall x, n | x != p && n != Root && NumberOf(s.numbers, x) !in StaleNumbers(s.numbers, s.procs[p]) ::
      Names(t.names, n, x) == Names(s.names, n, x)
    ensures Names(t.names, Root, p) && t.procs[p].path == Root
    ensures forall n <- t.names :: t.names[n] == p ==> n == Root
  {
    var pr := s.procs[p];
    var names := (s.names - {Candidate(p)})[Root := p];
    var promoted := At(s, names, p, Renamed(pr));
    var rest := names - {pr.path};
    Promotes(s, p);
    Finishes(promoted, p);
    t := At(s, Unswept(rest, s.numbers, Renamed(pr), rest.Keys - {Root}), p, Owning(Renamed(pr)));
    SameNumbersOfStale(s.numbers, pr, Renamed(pr));
    hide Reaches, StaleNumbers;
    Then(s, promoted, t);
  }

  lemma StaysAtPromotion(names: map<Name, Id>, names': map<Name, Id>, q: Id, pr: Proc)
    requires AtPromotion(names, q, pr) && !Names(names', Root, q)
    requires forall n | n != Root :: Names(names', n, q) == Names(names, n, q)
    ensures AtPromotion(names', q, pr)
  {
    assert forall n <- names' :: names'[n] == q ==> Names(names', n, q);
  }

  /** An attempt whose link is gone renames over the root all the same, and its rollback unlinks the root. */
  lemma EmptiesRoot(s: State, p: Id) returns (t: State)
    requires Alive(s, p) && s.procs[p].pc.Promoting? && s.procs[p].path.Next? && Names(s.names, Candidate(p), p)
    requires !Names(s.names, Root, p) && !Names(s.names, s.procs[p].path, p)
    ensures Reaches(s, t) && Alive(t, p) && t == At(s, t.names, p, t.procs[p])
    ensures t.names == s.names - {Candidate(p), Root}
  {
    var pr := Renamed(s.procs[p]);
    var names := (s.names - {Candidate(p)})[Root := p];
    Promotes(s, p);
    Misses(names, s.numbers, p, pr);
    hide Reaches, At, LinkedExactly, OperateWalk, OperateTail, OperateHolder;
    On(s, p, names, pr, names, Fail(pr));
    var left := pr.(pc := Cleaning(pr.linked - {Root}));
    PicksRoot(s, p, names, pr);
    On(s, p, names, pr.(pc := DroppingLink(Root, pr.linked - {Root})), names - {Root}, left);
    t := At(s, names - {Root}, p, left);
    assert names - {Root} == s.names - {Candidate(p), Root};
    SameAt(s, p, names - {Root}, left);
  }

  lemma SameAt(s: State, p: Id, names: map<Name, Id>, pr: Proc)
    ensures At(s, names, p, pr).names == names && At(s, names, p, pr).procs == s.procs[p := pr]
  {
  }

  lemma Misses(names: map<Name, Id>, numbers: map<Id, nat>, p: Id, pr: Proc)
    requires pr.pc.CheckingPromotion? && !Names(names, pr.path, p)
    ensures Operate(names, numbers, p, pr) == Effect(names, Fail(pr))
  {
    hide OperateWalk, OperateTail, OperateRollback;
    assert pr.path in {Root, pr.path};
  }

  lemma PicksRoot(s: State, p: Id, names: map<Name, Id>, pr: Proc)
    requires Alive(s, p) && Reaches(s, At(s, names, p, Fail(pr))) && Root in pr.linked && Names(names, Root, p)
    ensures Reaches(s, At(s, names, p, pr.(pc := DroppingLink(Root, pr.linked - {Root}))))
  {
    var t, u := At(s, names, p, Fail(pr)), At(s, names, p, pr.(pc := DroppingLink(Root, pr.linked - {Root})));
    hide Reaches, InUse, Operate;
    Acts(t, p, Pick(Root));
    assert Exec(t, p, Pick(Root)) == u;
    Then(s, t, u);
  }

  /** It is about to rename over the root, and its link is gone from the end of the chain. */
  ghost predicate LinkIsLost(s: State, p: Id) {
    && Alive(s, p) && s.procs[p].pc.Promoting? && s.procs[p].path.Next? && OnlyCandidate(s.names, p)
    && s.procs[p].path == EndOf(s.procs[p].stale) && EndsAt(s, s.procs[p].stale, |s.procs[p].stale|)
  }

  /** Another attempt links at the end of the chain and passes its checks; the rollback of the first one unlinks the
      root; a third one links the root and owns the claim; the second one renames over it. */
  lemma LostLinkLoses(s: State, p: Id) returns (u: State)
    requires RunInv(s) && LinkIsLost(s, p)
    ensures Reaches(s, u) && OwnedTwice(u)
  {
    var h, emptied := LinksAndEmpties(s, p);
    ReachesKeeps(s, emptied);
    var z, taken := TakesEmptyRoot(emptied);
    assert taken.procs[h] == emptied.procs[h];
    StaysAtPromotion(emptied.names, taken.names, h, emptied.procs[h]);
    hide Reaches, AtPromotion, OwnedTwice;
    u := ComesToOwn(taken, h);
    Twice(u, h, z);
    Then(s, emptied, taken);
    Then(s, taken, u);
  }

  lemma LinksAndEmpties(s: State, p: Id) returns (h: Id, t: State)
    requires RunInv(s) && LinkIsLost(s, p)
    ensures Reaches(s, t) && Alive(t, h) && AtPromotion(t.names, h, t.procs[h]) && Root !in t.names
  {
    hide RunInv, EndsAt, Reaches, EndOf;
    var stale := s.procs[p].stale;
    assert stale[..|stale|] == stale;
    var linked;
    h, linked := NewcomerLinks(s, stale, |stale|);
    t := EmptiesRoot(linked, p);
    Then(s, linked, t);
  }

  lemma TakesEmptyRoot(s: State) returns (z: Id, t: State)
    requires RunInv(s) && Root !in s.names
    ensures Reaches(s, t) && z !in s.procs && Owns(t, z)
    ensures t.procs == s.procs[z := t.procs[z]] && t.died == s.died
    ensures forall n, q | q in s.procs :: Names(t.names, n, q) == Names(s.names, n, q)
  {
    hide Reaches, RunInv;
    var born;
    z, born := IsBorn(s);
    t := At(born, (born.names - {Candidate(z)})[Root := z], z, Proc(Owned, Root, {Root}, [], {}));
    TakesRoot(born, z);
    NothingOf(s, z);
    Then(s, born, t);
  }

  lemma NothingOf(s: State, h: Id)
    requires RunInv(s) && h !in s.procs
    ensures Candidate(h) !in s.names && forall n <- s.names :: s.names[n] != h
  {
    assert NamesInv(s.names, s.died);
    assert forall n <- s.names :: s.names[n] in s.names.Values;
  }

  /** The walk starts at the root that is there, and goes over `path`. */
  predicate GoesOver(names: map<Name, Id>, pr: Proc, path: Name) {
    pr.stale != [] && Names(names, Root, pr.stale[0].id) && path in StalePaths(pr)
  }

  /** Of `was`, where the walk of `r` was in place, `path` is gone. */
  ghost predicate Cut(s: State, was: map<Name, Id>, r: Id, path: Name) {
    && RunInv(s) && Lone(s, r) && s.names == was - {path} && path.Next?
    && GoesOver(was, s.procs[r], path) && InPlace(was, s.procs[r].stale) && NumbersTell(was, s.numbers)
  }

  /** Then a new attempt links at `path`, so that two are about to rename over the root. */
  lemma CutDoubles(s: State, was: map<Name, Id>, r: Id, path: Name) returns (h: Id, t: State)
    requires Cut(s, was, r, path) && AtPromotion(s.names, r, s.procs[r])
    ensures Reaches(s, t) && TwoPromote(t, r, h)
  {
    var k := CutEnds(s, was, r, path);
    h, t := NewcomerLinks(s, s.procs[r].stale, k);
    NewNumber(s, t, h, s.procs[r]);
    StaysAtPromotion(s.names, t.names, r, s.procs[r]);
    hide Reaches, RunInv, EndsAt, StaleNumbers, InPlace, NumbersTell, AtPromotion;
  }

  /** Two are about to rename over the root, and the first one's sweep spares the second one. */
  predicate TwoPromote(s: State, p: Id, q: Id) {
    && p != q && Alive(s, p) && Alive(s, q)
    && AtPromotion(s.names, p, s.procs[p]) && AtPromotion(s.names, q, s.procs[q])
    && NumberOf(s.numbers, q) !in StaleNumbers(s.numbers, s.procs[p])
  }

  /** The first one comes to own the claim, and the second one renames over it. */
  lemma BothOwn(s: State, p: Id, q: Id) returns (t: State)
    requires TwoPromote(s, p, q)
    ensures Reaches(s, t) && OwnedTwice(t)
  {
    hide Reaches, StaleNumbers, OwnedTwice;
    var owned := ComesToOwn(s, p);
    StaysAtPromotion(s.names, owned.names, q, s.procs[q]);
    t := ComesToOwn(owned, q);
    Twice(t, p, q);
    Then(s, owned, t);
  }

  /** A release that renames the file of another attempt, which rolls back. */
  ghost predicate Misnamed(s: State, p: Id, q: Id) {
    && p != q && Alive(s, q) && s.procs[q].pc == Cleaning(s.procs[q].linked) && Names(s.names, Release(p), q)
  }

  ghost predicate Misnames(s: State) {
    exists p, q :: Misnamed(s, p, q)
  }

  /** The first one has checked that it still owns the claim; the second one renames over the root, which the first
      one renames to its release path. */
  lemma ReleaseMisnames(s: State, p: Id, q: Id) returns (t: State)
    requires TwoPromote(s, p, q)
    ensures Reaches(s, t) && Misnamed(t, p, q)
  {
    hide Reaches, StaleNumbers, Misnamed;
    var owned := ComesToOwn(s, p);
    StaysAtPromotion(s.names, owned.names, q, s.procs[q]);
    var releasing := At(owned, owned.names, p, owned.procs[p].(pc := Releasing));
    StartsRelease(owned, p);
    Then(s, owned, releasing);
    Promotes(releasing, q);
    var over := At(releasing, (owned.names - {Candidate(q)})[Root := q], q, Renamed(s.procs[q]));
    Then(s, releasing, over);
    t := RenamesAway(over, p, q);
    Then(s, over, t);
  }

  lemma StartsRelease(s: State, p: Id)
    requires Owns(s, p) && s.procs[p].path == Root && Names(s.names, Root, p)
    requires forall n <- s.names :: s.names[n] == p ==> n == Root
    ensures Reaches(s, At(s, s.names, p, s.procs[p].(pc := Releasing)))
  {
    Stays(s, p);
    ExactLinks(s.names, p, {Root});
    hide Reaches, At, LinkedExactly, OperateWalk, OperateTail, OperateRollback;
    On(s, p, s.names, s.procs[p], s.names, s.procs[p].(pc := Releasing));
  }

  lemma RenamesAway(s: State, p: Id, q: Id) returns (t: State)
    requires Alive(s, p) && Alive(s, q) && p != q && s.procs[p].pc.Releasing? && s.procs[p].path == Root
    requires s.procs[q].pc.CheckingPromotion? && Names(s.names, Root, q) && !Names(s.names, Release(p), q)
    ensures Reaches(s, t) && Misnamed(t, p, q)
  {
    var names := Rename(s.names, Root, Release(p));
    var away := At(s, names, p, s.procs[p].(pc := DroppingRelease));
    Stays(s, p);
    hide Reaches, LinkedExactly, OperateWalk, OperateTail, OperateRollback;
    On(s, p, s.names, s.procs[p], names, s.procs[p].(pc := DroppingRelease));
    Stays(away, q);
    MissesRoot(names, s.numbers, q, s.procs[q]);
    hide Operate;
    On(away, q, names, s.procs[q], names, Fail(s.procs[q]));
    t := At(away, names, q, Fail(s.procs[q]));
    Then(s, away, t);
  }

  lemma MissesRoot(names: map<Name, Id>, numbers: map<Id, nat>, p: Id, pr: Proc)
    requires pr.pc.CheckingPromotion? && Root !in names
    ensures Operate(names, numbers, p, pr) == Effect(names, Fail(pr))
  {
    hide OperateWalk, OperateTail, OperateRollback;
    assert Root in {Root, pr.path};
  }

  lemma CutLoses(s: State, was: map<Name, Id>, r: Id, path: Name) returns (u: State)
    requires Cut(s, was, r, path) && AtPromotion(s.names, r, s.procs[r])
    ensures Reaches(s, u) && OwnedTwice(u)
  {
    hide Reaches, Cut, TwoPromote, AtPromotion, OwnedTwice;
    var h, t := CutDoubles(s, was, r, path);
    u := BothOwn(t, r, h);
    Then(s, t, u);
  }

  lemma CutEnds(s: State, was: map<Name, Id>, r: Id, path: Name) returns (k: nat)
    requires Cut(s, was, r, path)
    ensures EndsAt(s, s.procs[r].stale, k) && EndOf(s.procs[r].stale[..k]) == path
  {
    var stale := s.procs[r].stale;
    assert Grounded(s.names, s.died, r, s.procs[r]);
    InPlaceApart(was, s.numbers, s.died, stale);
    k :| 0 <= k < |stale| && stale[k].path == path;
    PathsBefore(s, was, stale, k);
    hide RunInv, NumbersTell, InPlace, StalePaths;
  }

  lemma PathsBefore(s: State, was: map<Name, Id>, stale: seq<Stale>, k: nat)
    requires k < |stale| && Chained(stale) && Apart(s.numbers, stale) && InPlace(was, stale)
    requires s.names == was - {stale[k].path} && stale[k].path.Next?
    ensures 0 < k && EndOf(stale[..k]) == stale[k].path
    ensures forall j {:trigger stale[j].path} | 0 <= j < k :: Names(s.names, stale[j].path, stale[j].id)
  {
    EndBefore(stale, k);
    hide Chained, NumberOf;
    forall j | 0 <= j < k ensures Names(s.names, stale[j].path, stale[j].id) {
      assert stale[j].id == stale[j].id && stale[k].id == stale[k].id;
    }
  }

  lemma EndBefore(stale: seq<Stale>, k: nat)
    requires k < |stale| && Chained(stale)
    ensures EndOf(stale[..k]) == stale[k].path && (stale[k].path.Next? ==> 0 < k)
  {
    assert k == 0 ==> stale[k].path == Root;
    assert k > 0 ==> stale[..k][k - 1] == stale[k - 1];
  }

  lemma NewNumber(s: State, t: State, h: Id, pr: Proc)
    requires RunInv(s) && h !in s.procs && h in t.numbers && t.numbers == s.numbers[h := t.numbers[h]]
    requires t.numbers[h] !in s.numbers.Values && AllDead(s.died, pr.stale)
    ensures NumberOf(t.numbers, h) !in StaleNumbers(t.numbers, pr)
  {
    forall j | 0 <= j < |pr.stale| ensures NumberOf(t.numbers, pr.stale[j].id) != NumberOf(t.numbers, h) {
      assert pr.stale[j].id in s.died;
    }
  }

  /** A walker goes on over claims of dead owners to the end of the chain, and links there. */
  lemma {:induction false} WalksToTail(s: State, was: map<Name, Id>, r: Id, path: Name)
    returns (t: State, was': map<Name, Id>)
    requires Cut(s, was, r, path) && s.procs[r].pc.Linking? && OnlyCandidate(s.names, r)
    ensures Reaches(s, t) && Cut(t, was', r, path) && AtPromotion(t.names, r, t.procs[r])
    decreases s.died.Keys - StaleIds(s.procs[r])
  {
    hide Reaches, RunInv, StaleIds, AtPromotion, OnlyCandidate, NumbersTell, InPlace;
    if s.procs[r].path in s.names {
      var next := WalksOne(s, was, r, path);
      t, was' := WalksToTail(next, was, r, path);
      Then(s, next, t);
    } else {
      t, was' := LinksAtEnd(s, was, r, path);
    }
  }

  lemma WalksOne(s: State, was: map<Name, Id>, r: Id, path: Name) returns (t: State)
    requires Cut(s, was, r, path) && s.procs[r].pc.Linking? && OnlyCandidate(s.names, r)
    requires s.procs[r].path in s.names
    ensures Reaches(s, t) && Cut(t, was, r, path) && t.procs[r].pc.Linking? && OnlyCandidate(t.names, r)
    ensures t.died.Keys - StaleIds(t.procs[r]) < s.died.Keys - StaleIds(s.procs[r])
  {
    var pr := s.procs[r];
    var c := s.names[pr.path];
    t := At(s, s.names, r, Walked(pr, c));
    GroundOf(s, r);
    WalkNeverCycles(s.died, pr);
    NextIsNew(s, was, r, path);
    hide Reaches, Cut, StaleNumbers, StaleIds, RunInv, WalkInv;
    Walks(s, r, c);
    ReachesKeeps(s, t);
    StillCut(s, t, was, r, path, c);
    FewerLeft(s.died, pr, Walked(pr, c), c);
  }

  lemma GroundOf(s: State, r: Id)
    requires RunInv(s) && Alive(s, r)
    ensures WalkInv(s.died, s.procs[r])
  {
    assert Grounded(s.names, s.died, r, s.procs[r]);
  }

  lemma LinksAtEnd(s: State, was: map<Name, Id>, r: Id, path: Name) returns (t: State, was': map<Name, Id>)
    requires Cut(s, was, r, path) && s.procs[r].pc.Linking? && OnlyCandidate(s.names, r)
    requires s.procs[r].path !in s.names
    ensures Reaches(s, t) && Cut(t, was', r, path) && AtPromotion(t.names, r, t.procs[r])
  {
    hide Chained, StaleNumbers;
    var pr := s.procs[r];
    was' := was[pr.path := r];
    t := At(s, s.names[pr.path := r], r, TailTaken(pr));
    GroundOf(s, r);
    WalkNeverCycles(s.died, pr);
    assert pr.path.Next?;
    hide Reaches, RunInv, WalkInv, StalePaths;
    TakesTail(s, r);
    ReachesKeeps(s, t);
    CutAtTail(s, t, was, r, path);
  }

  /** What stands at the end of the walk is of a dead owner that was not met, and has a number that was not met. */
  lemma NextIsNew(s: State, was: map<Name, Id>, r: Id, path: Name)
    requires Cut(s, was, r, path) && OnlyCandidate(s.names, r)
    requires Walking(s.procs[r].pc) && s.procs[r].path in s.names
    ensures var pr := s.procs[r]; var c := s.names[pr.path];
      c in s.died && c !in StaleIds(pr) && NumberOf(s.numbers, c) !in StaleNumbers(s.numbers, pr)
  {
    var pr := s.procs[r];
    var c := s.names[pr.path];
    assert Grounded(s.names, s.died, r, pr);
    assert c in s.names.Values;
    CrashOrderGrows(s.names, s.died, pr.stale, c);
    forall j | 0 <= j < |pr.stale| ensures NumberOf(s.numbers, pr.stale[j].id) != NumberOf(s.numbers, c) {
      assert Names(was, pr.stale[j].path, pr.stale[j].id);
      assert was[pr.path] == c;
    }
  }

  lemma StillCut(s: State, t: State, was: map<Name, Id>, r: Id, path: Name, c: Id)
    requires Cut(s, was, r, path) && RunInv(t) && Alive(t, r) && t == At(s, s.names, r, t.procs[r])
    requires Names(s.names, s.procs[r].path, c)
    requires t.procs[r].stale == s.procs[r].stale + [Stale(s.procs[r].path, c)]
    ensures Cut(t, was, r, path)
  {
    GrowsOver(was, s.procs[r], t.procs[r], path, c);
    hide RunInv, NumbersTell, GoesOver, InPlace;
  }

  lemma GrowsOver(names: map<Name, Id>, pr: Proc, next: Proc, path: Name, c: Id)
    requires GoesOver(names, pr, path) && InPlace(names, pr.stale) && Names(names, pr.path, c)
    requires next.stale == pr.stale + [Stale(pr.path, c)]
    ensures GoesOver(names, next, path) && InPlace(names, next.stale)
  {
    assert forall j | 0 <= j < |pr.stale| :: next.stale[j] == pr.stale[j];
    var j :| 0 <= j < |pr.stale| && pr.stale[j].path == path;
    assert next.stale[j].path == path;
  }

  lemma CutAtTail(s: State, t: State, was: map<Name, Id>, r: Id, path: Name)
    requires Cut(s, was, r, path) && RunInv(t) && OnlyCandidate(s.names, r)
    requires s.procs[r].path !in s.names && s.procs[r].path !in StalePaths(s.procs[r])
    requires s.procs[r].path.Next?
    requires t == At(s, s.names[s.procs[r].path := r], r, TailTaken(s.procs[r]))
    ensures Cut(t, was[s.procs[r].path := r], r, path) && AtPromotion(t.names, r, t.procs[r])
  {
    hide RunInv, InPlace, NumbersTell, StalePaths;
    var pr := s.procs[r];
    assert pr.path != path;
    assert t.names == was[pr.path := r] - {path};
    assert Names(was, Candidate(r), r);
    OneMoreName(was, s.numbers, r, Candidate(r), pr);
    SamePaths(t.procs[r], pr);
  }

  lemma SamePaths(pr: Proc, pr': Proc)
    requires pr.stale == pr'.stale
    ensures StalePaths(pr) == StalePaths(pr')
  {
  }

  lemma OneMoreName(names: map<Name, Id>, numbers: map<Id, nat>, r: Id, n: Name, pr: Proc)
    requires Names(names, n, r) && InPlace(names, pr.stale) && NumbersTell(names, numbers)
    requires pr.path !in StalePaths(pr)
    ensures InPlace(names[pr.path := r], pr.stale) && NumbersTell(names[pr.path := r], numbers)
  {
    assert forall j | 0 <= j < |pr.stale| :: pr.stale[j].path in StalePaths(pr);
  }

  lemma WalkerLoses(s: State, was: map<Name, Id>, r: Id, path: Name) returns (u: State)
    requires Cut(s, was, r, path) && Walking(s.procs[r].pc) && Current(s.names, r, s.procs[r])
    requires OnlyCandidate(s.names, r)
    ensures Reaches(s, u) && OwnedTwice(u)
  {
    var pr := s.procs[r];
    var t, was';
    if pr.pc.Linking? {
      t, was' := WalksToTail(s, was, r, path);
    } else {
      var c := s.names[pr.path];
      var next := At(s, s.names, r, Remembered(pr, c));
      NextIsNew(s, was, r, path);
      ReadsOn(s, r, c);
      TakesIn(s, r, pr, c);
      ReachesKeeps(s, next);
      hide Reaches, RunInv, StaleNumbers, StaleIds;
      StillCut(s, next, was, r, path, c);
      t, was' := WalksToTail(next, was, r, path);
      Then(s, next, t);
    }
    hide Cut, AtPromotion, OwnedTwice;
    u := CutLoses(t, was', r, path);
    Then(s, t, u);
  }

  lemma TailLoses(s: State, was: map<Name, Id>, r: Id, path: Name) returns (u: State)
    requires Cut(s, was, r, path) && TailIsSound(s.names, r, s.procs[r])
    requires AtPromotion(s.names, r, s.procs[r].(pc := Promoting))
    ensures Reaches(s, u) && OwnedTwice(u)
  {
    var t := At(s, s.names, r, s.procs[r].(pc := Promoting));
    ComesToPromotion(s, r);
    ReachesKeeps(s, t);
    CutAtPromotion(s, was, r, path);
    hide Reaches, RunInv, OwnedTwice, Cut, AtPromotion;
    u := CutLoses(t, was, r, path);
    Then(s, t, u);
  }

  lemma CutAtPromotion(s: State, was: map<Name, Id>, r: Id, path: Name)
    requires Cut(s, was, r, path) && RunInv(At(s, s.names, r, s.procs[r].(pc := Promoting)))
    ensures Cut(At(s, s.names, r, s.procs[r].(pc := Promoting)), was, r, path)
  {
    SamePaths(s.procs[r], s.procs[r].(pc := Promoting));
    hide RunInv, InPlace, NumbersTell, StalePaths;
  }

  /** A chain of dead claims leads from the root to the path. */
  ghost predicate Attached(s: State, path: Name) {
    exists b: seq<Stale> :: LeadsFromRoot(s, b) && EndOf(b) == path
  }

  ghost predicate LeadsFromRoot(s: State, b: seq<Stale>) {
    b != [] && Chained(b) && InPlace(s.names, b) && AllDead(s.died, b)
  }

  /** The unlink of `path` lets two attempts own the claim: `r` has walked over it, and will rename over the root if
      it goes on; or it is the link of `r`, which has checked it and will rename over the root; or `r` rolls back,
      and is about to unlink what stands there by then.  What else `Needs` says of a path, of a link not checked yet
      or of an attempt that has renamed, of the next entry of a sweep, of a walk without its candidate, with outdated
      reads or at a "duplicate" itself, the invariant needs; these are not shown to lose the claim. */
  ghost predicate Loses(s: State, r: Id, path: Name)
    requires r in s.procs
  {
    var pr := s.procs[r];
    || (GoesOver(s.names, pr, path) && (AtTail(pr.pc) || (Walking(pr.pc) && Current(s.names, r, pr))))
    || (Names(s.names, path, r) && (pr.pc.OpeningRoot? || pr.pc.ConfirmingRoot? || pr.pc.Promoting?) &&
          pr.stale != [] && Names(s.names, Root, pr.stale[0].id))
    || (pr.pc.DroppingLink? && pr.pc.entry == path && Attached(s, path))
  }

  /** The unlink is done, and all other attempts die. */
  lemma CutsAndDies(s: State, p: Id, r: Id) returns (t: State)
    requires Inv(s) && Enabled(s, p, Go) && s.procs[p].pc.DroppingDuplicate? && s.procs[p].path in s.names
    requires Alive(s, r) && r != p
    ensures Reaches(Exec(s, p, Go), t) && RunInv(t) && Lone(t, r) && s.procs[p].path.Next?
    ensures t.names == s.names - {s.procs[p].path} && t.numbers == s.numbers && t.procs[r] == s.procs[r]
    ensures s.died.Keys <= t.died.Keys
  {
    var u := Exec(s, p, Go);
    DuplicateUnlinks(s, p);
    RunStepKeeps(s, p, Go);
    hide Reaches, Exec, Inv;
    t := OthersDie(u, r);
    ReachesKeeps(u, t);
  }

  /** Where one of these kinds is met, the unlink of a "duplicate" can be followed, without any other unlink of
      that kind, by a state in which two live attempts own the claim. */
  lemma UnlinkLoses(s: State, p: Id, r: Id) returns (u: State)
    requires Inv(s) && Enabled(s, p, Go) && s.procs[p].pc.DroppingDuplicate? && s.procs[p].path in s.names
    requires Alive(s, r) && r != p && Loses(s, r, s.procs[p].path)
    ensures Reaches(Exec(s, p, Go), u) && OwnedTwice(u)
  {
    var path, pr := s.procs[p].path, s.procs[r];
    var t := CutsAndDies(s, p, r);
    hide Reaches, Exec, OwnedTwice, RunInv, Attached;
    if GoesOver(s.names, pr, path) && Walking(pr.pc) && Current(s.names, r, pr) {
      WalkerIsCut(s, t, r, path);
      u := WalkerLoses(t, s.names, r, path);
    } else if GoesOver(s.names, pr, path) && AtTail(pr.pc) {
      TailIsCut(s, t, r, path);
      u := TailLoses(t, s.names, r, path);
    } else if pr.pc.DroppingLink? {
      u := RollbackLoses(s, t, r, path);
    } else {
      u := LinkLoses(s, t, r, path);
    }
    Then(Exec(s, p, Go), t, u);
  }

  /** Without an unlink that takes what others rely on, nobody else comes to own it. */
  lemma SparedIsSafe(s: State, p: Id, u: State)
    requires Inv(s) && Enabled(s, p, Go) && Spares(s, p, Go) && Reaches(Exec(s, p, Go), u)
    ensures !OwnedTwice(u)
  {
    StepKeeps(s, p, Go);
    hide Reaches, Spares, Exec, Inv, Enabled;
    ReachesKeeps(Exec(s, p, Go), u);
    forall q, r | Owns(u, q) && Owns(u, r) ensures q == r {
      HoldingIsExclusive(u, q);
    }
  }

  ghost predicate Bereft(s: State, t: State, r: Id, path: Name) {
    && Inv(s) && Alive(s, r) && path in s.names && path.Next? && RunInv(t) && Lone(t, r)
    && t.names == s.names - {path} && t.numbers == s.numbers && t.procs[r] == s.procs[r] && s.died.Keys <= t.died.Keys
  }

  lemma CutOf(s: State, t: State, r: Id, path: Name)
    requires Bereft(s, t, r, path) && GoesOver(s.names, s.procs[r], path)
    requires Walking(s.procs[r].pc) || AtTail(s.procs[r].pc)
    ensures Cut(t, s.names, r, path)
  {
    ProcOf(s, r);
    LinkedNumbersTell(s);
    hide Inv, RunInv, NumbersTell, LinksInv, WalkInv;
  }

  lemma WalkerIsCut(s: State, t: State, r: Id, path: Name)
    requires Bereft(s, t, r, path) && GoesOver(s.names, s.procs[r], path)
    requires Walking(s.procs[r].pc) && Current(s.names, r, s.procs[r])
    ensures Cut(t, s.names, r, path) && Current(t.names, r, t.procs[r]) && OnlyCandidate(t.names, r)
  {
    CutOf(s, t, r, path);
    ProcOf(s, r);
    EndIsNotMet(s.died, s.procs[r]);
    hide Inv, RunInv, Cut, NamesInv;
    WalkerStays(s.names, s.died, r, s.procs[r], path);
  }

  lemma WalkerStays(names: map<Name, Id>, died: map<Id, nat>, r: Id, pr: Proc, path: Name)
    requires ProcInv(names, died, r, pr) && GoesOver(names, pr, path) && Walking(pr.pc) && path.Next?
    requires Current(names, r, pr) && pr.path !in StalePaths(pr)
    ensures Current(names - {path}, r, pr) && OnlyCandidate(names - {path}, r)
  {
    hide Chained, InCrashOrder, Frozen;
    assert pr.path != path;
    hide WalkInv, StalePaths;
  }

  lemma EndIsNotMet(died: map<Id, nat>, pr: Proc)
    requires WalkInv(died, pr) && (Walking(pr.pc) || AtTail(pr.pc))
    ensures pr.path !in StalePaths(pr)
  {
    WalkNeverCycles(died, pr.(pc := Linking, visited := {}));
  }

  lemma TailIsCut(s: State, t: State, r: Id, path: Name)
    requires Bereft(s, t, r, path) && GoesOver(s.names, s.procs[r], path) && AtTail(s.procs[r].pc)
    ensures Cut(t, s.names, r, path) && TailIsSound(t.names, r, t.procs[r])
    ensures AtPromotion(t.names, r, t.procs[r].(pc := Promoting))
  {
    CutOf(s, t, r, path);
    ProcOf(s, r);
    EndIsNotMet(s.died, s.procs[r]);
    hide Inv, RunInv, Cut, NamesInv;
    TailStays(s.names, s.died, r, s.procs[r], path);
  }

  lemma TailStays(names: map<Name, Id>, died: map<Id, nat>, r: Id, pr: Proc, path: Name)
    requires ProcInv(names, died, r, pr) && GoesOver(names, pr, path) && AtTail(pr.pc) && path.Next?
    requires pr.path !in StalePaths(pr)
    ensures TailIsSound(names - {path}, r, pr) && AtPromotion(names - {path}, r, pr.(pc := Promoting))
  {
    hide Chained, InCrashOrder, Frozen;
    assert pr.path.Next? && pr.path != path && !pr.pc.DroppingCandidate?;
    ExactLinks(names - {path}, r, {Candidate(r), pr.path});
    hide WalkInv, LinkedExactly, StalePaths;
  }

  /** The own link of an attempt that has checked it. */
  lemma LinkLoses(s: State, t: State, r: Id, path: Name) returns (u: State)
    requires Bereft(s, t, r, path) && Names(s.names, path, r)
    requires var pc := s.procs[r].pc; pc.OpeningRoot? || pc.ConfirmingRoot? || pc.Promoting?
    requires s.procs[r].stale != [] && Names(s.names, Root, s.procs[r].stale[0].id)
    ensures Reaches(t, u) && OwnedTwice(u)
  {
    var next := At(t, t.names, r, t.procs[r].(pc := Promoting));
    OwnLinkIsLost(s, t, r, path);
    ComesToPromotion(t, r);
    ReachesKeeps(t, next);
    hide Reaches, OwnedTwice, LinkIsLost, Bereft;
    u := LostLinkLoses(next, r);
    Then(t, next, u);
  }

  lemma OwnLinkIsLost(s: State, t: State, r: Id, path: Name)
    requires Bereft(s, t, r, path) && Names(s.names, path, r)
    requires var pc := s.procs[r].pc; pc.OpeningRoot? || pc.ConfirmingRoot? || pc.Promoting?
    requires s.procs[r].stale != [] && Names(s.names, Root, s.procs[r].stale[0].id)
    ensures TailIsSound(t.names, r, t.procs[r])
    ensures LinkIsLost(At(t, t.names, r, t.procs[r].(pc := Promoting)), r)
  {
    ProcOf(s, r);
    OwnLinkGone(s.names, s.died, r, s.procs[r], path);
    assert LeadsFromRoot(s, s.procs[r].stale) by {
      hide LinksInv;
    }
    hide Inv, RunInv, ProcInv, NamesInv, LeadsFromRoot;
    ChainEnds(s, t, r, s.procs[r].stale);
  }

  lemma OwnLinkGone(names: map<Name, Id>, died: map<Id, nat>, r: Id, pr: Proc, path: Name)
    requires ProcInv(names, died, r, pr) && Names(names, path, r) && path.Next?
    requires pr.pc.OpeningRoot? || pr.pc.ConfirmingRoot? || pr.pc.Promoting?
    requires pr.stale != [] && Names(names, Root, pr.stale[0].id)
    ensures pr.path == path == EndOf(pr.stale)
    ensures TailIsSound(names - {path}, r, pr) && OnlyCandidate(names - {path}, r)
  {
    hide Chained, InCrashOrder, Frozen;
  }

  lemma {:induction false} ChainOrder(names: map<Name, Id>, died: map<Id, nat>, b: seq<Stale>)
    requires NamesInv(names, died) && Chained(b) && InPlace(names, b) && AllDead(died, b)
    ensures InCrashOrder(died, b)
  {
    if |b| > 0 {
      var shorter := b[..|b| - 1];
      assert forall j | 0 <= j < |shorter| :: shorter[j] == b[j];
      assert Chained(shorter) && InPlace(names, shorter) && AllDead(died, shorter);
      ChainOrder(names, died, shorter);
      LastOf(names, died, b);
      hide Chained, InPlace, AllDead, InCrashOrder, NamesInv;
      CrashOrderGrows(names, died, shorter, b[|b| - 1].id);
    }
  }

  lemma LastOf(names: map<Name, Id>, died: map<Id, nat>, b: seq<Stale>)
    requires Chained(b) && InPlace(names, b) && AllDead(died, b) && b != []
    ensures var shorter, last := b[..|b| - 1], b[|b| - 1].id;
      b == shorter + [Stale(EndOf(shorter), last)] && Names(names, EndOf(shorter), last) && last in died
  {
    EndBefore(b, |b| - 1);
    assert Names(names, b[|b| - 1].path, b[|b| - 1].id);
  }

  /** A rollback that is about to unlink the path takes the link of the attempt that has come there. */
  lemma RollbackLoses(s: State, t: State, r: Id, path: Name) returns (u: State)
    requires Bereft(s, t, r, path) && s.procs[r].pc.DroppingLink? && s.procs[r].pc.entry == path && Attached(s, path)
    ensures Reaches(t, u) && OwnedTwice(u)
  {
    var b :| LeadsFromRoot(s, b) && EndOf(b) == path;
    ChainEnds(s, t, r, b);
    hide Reaches, RunInv, Inv, LeadsFromRoot, EndsAt, LinkIsLost, OwnedTwice;
    var h, next := RollbackTakes(t, r, b);
    ReachesKeeps(t, next);
    u := LostLinkLoses(next, h);
    Then(t, next, u);
  }

  lemma RollbackTakes(t: State, r: Id, b: seq<Stale>) returns (h: Id, next: State)
    requires RunInv(t) && EndsAt(t, b, |b|) && Alive(t, r) && t.procs[r].pc.DroppingLink?
    requires t.procs[r].pc.entry == EndOf(b)
    ensures Reaches(t, next) && LinkIsLost(next, h)
  {
    hide Reaches, RunInv, LinkIsLost;
    assert b[..|b|] == b && EndOf(b) !in t.names;
    hide EndsAt, EndOf;
    var linked;
    h, linked := NewcomerLinks(t, b, |b|);
    next := At(linked, linked.names - {EndOf(b)}, r, t.procs[r].(pc := Cleaning(t.procs[r].pc.todo)));
    UnlinksIt(linked, r);
    Then(t, linked, next);
    EndIsNoCandidate(t, b, h);
    assert next.names == t.names[Candidate(h) := h] && next.names[EndOf(b) := h] == linked.names;
    LinkIsLostTo(t, next, h, b);
  }

  lemma EndIsNoCandidate(t: State, b: seq<Stale>, h: Id)
    requires EndsAt(t, b, |b|)
    ensures EndOf(b) != Candidate(h)
  {
  }

  lemma UnlinksIt(s: State, r: Id)
    requires Alive(s, r) && s.procs[r].pc.DroppingLink?
    ensures var pc := s.procs[r].pc;
      Reaches(s, At(s, s.names - {pc.entry}, r, s.procs[r].(pc := Cleaning(pc.todo))))
  {
    var pc := s.procs[r].pc;
    Stays(s, r);
    hide Reaches, At, LinkedExactly, OperateWalk, OperateTail, OperateHolder;
    On(s, r, s.names, s.procs[r], s.names - {pc.entry}, s.procs[r].(pc := Cleaning(pc.todo)));
  }

  lemma ChainEnds(s: State, t: State, r: Id, b: seq<Stale>)
    requires Bereft(s, t, r, EndOf(b)) && LeadsFromRoot(s, b)
    ensures EndsAt(t, b, |b|)
  {
    hide StaleNumbers;
    hide StalePaths, StaleIds, CanFail, PlaceInv;
    assert b[..|b|] == b;
    LinkedNumbersTell(s);
    ChainOrder(s.names, s.died, b);
    InPlaceApart(s.names, s.numbers, s.died, b);
    hide Inv, RunInv, NumbersTell;
  }

  lemma LinkIsLostTo(t: State, next: State, h: Id, b: seq<Stale>)
    requires RunInv(t) && EndsAt(t, b, |b|) && Alive(next, h) && next.died == t.died &&
      next.names == t.names[Candidate(h) := h]
    requires AtPromotion(next.names[EndOf(b) := h], h, next.procs[h])
    requires next.procs[h].path == EndOf(b) && next.procs[h].stale == b
    requires h in next.numbers && next.numbers == t.numbers[h := next.numbers[h]] && h !in t.procs
    ensures LinkIsLost(next, h)
  {
    assert b[..|b|] == b;
    StillEnds(t, next, h, b, |b|);
    var with := next.names[EndOf(b) := h];
    assert forall n <- next.names :: n != EndOf(b) ==> with[n] == next.names[n];
    hide RunInv, EndsAt;
  }

  // ---------------------------------------------------------------------------------------------
  // The run.  0 owned the root and died; 1 renamed over it and died before it unlinked its old link, which frees
  // the number of 0; 2 remembers both; 3 gets the number of 0, links behind 1 and dies; 4 links behind 3; 2 takes the
  // file of 3 for a duplicate of that of 0.

  const AT_ZERO := [Stale(Root, 0)]
  const AT_ONE := [Stale(Root, 1)]

  lemma ZeroOwnsAndDies() returns (t: State)
    ensures Reaches(INIT, t)
    ensures t.names == map[Root := 0] && t.numbers == map[0 := 10] && t.procs.Keys == {0} && t.died.Keys == {0}
  {
    Starts(INIT, 0, 10);
    var s1 := INIT.(names := map[Candidate(0) := 0], numbers := map[0 := 10], procs := map[0 := Walker(Root, {}, [])]);
    TakesRoot(s1, 0);
    var s2 := At(s1, map[Root := 0], 0, Proc(Owned, Root, {Root}, [], {}));
    assert (s1.names - {Candidate(0)})[Root := 0] == map[Root := 0];
    Then(INIT, s1, s2);
    Dies(s2, 0);
    t := s2.(died := s2.died[0 := s2.clock], clock := s2.clock + 1);
    Then(INIT, s2, t);
  }

  /** A new attempt that has read the dead claim at the root. */
  lemma StartsAndWalks(s: State, p: Id, number: nat, c: Id) returns (t: State)
    requires p !in s.procs && p !in s.died && s.numbers.Keys <= s.procs.Keys && Free(s, number)
    requires Candidate(p) !in s.names && (forall n <- s.names :: s.names[n] != p) && Names(s.names, Root, c) &&
      c in s.died
    ensures Reaches(s, t)
    ensures t == s.(
      names := s.names[Candidate(p) := p],
      numbers := s.numbers[p := number],
      procs := s.procs[p := Walker(Next(c), {Root}, [Stale(Root, c)])])
  {
    Starts(s, p, number);
    var s1 := s.(
      names := s.names[Candidate(p) := p],
      numbers := s.numbers[p := number],
      procs := s.procs[p := Walker(Root, {}, [])]);
    Walks(s1, p, c);
    t := At(s1, s1.names, p, Walked(Walker(Root, {}, []), c));
    hide Reaches, Free;
    assert {} + {Root} == {Root} && [] + [Stale(Root, c)] == [Stale(Root, c)];
    assert Walked(Walker(Root, {}, []), c) == Walker(Next(c), {Root}, [Stale(Root, c)]);
    assert s1.procs[p := t.procs[p]] == s.procs[p := t.procs[p]];
    Then(s, s1, t);
  }

  lemma TwoWalks(s: State) returns (t: State)
    requires s.names == map[Root := 0] && s.numbers == map[0 := 10] && s.procs.Keys == {0} && s.died.Keys == {0}
    ensures Reaches(s, t)
    ensures t.names == map[Root := 0, Candidate(2) := 2] && t.numbers == map[0 := 10, 2 := 12]
    ensures t.procs.Keys == {0, 2} && t.died.Keys == {0} && t.procs[2] == Walker(Next(0), {Root}, AT_ZERO)
  {
    t := StartsAndWalks(s, 2, 12, 0);
  }

  lemma OneLinks(s: State) returns (t: State)
    requires s.names == map[Root := 0, Candidate(2) := 2] && s.numbers == map[0 := 10, 2 := 12]
    requires s.procs.Keys == {0, 2} && s.died.Keys == {0}
    ensures Reaches(s, t)
    ensures t.names == map[Root := 0, Candidate(2) := 2, Candidate(1) := 1, Next(0) := 1]
    ensures t.numbers == map[0 := 10, 1 := 11, 2 := 12]
    ensures t.procs.Keys == {0, 1, 2} && t.died.Keys == {0} && t.procs[1].pc == Promoting && t.procs[2] == s.procs[2]
  {
    var s1 := StartsAndWalks(s, 1, 11, 0);
    hide Reaches, Free;
    TakesTail(s1, 1);
    t := At(s1, s1.names[Next(0) := 1], 1, TailTaken(s1.procs[1]));
    Then(s, s1, t);
  }

  lemma OnePromotesAndDies(s: State) returns (t: State)
    requires s.names == map[Root := 0, Candidate(2) := 2, Candidate(1) := 1, Next(0) := 1]
    requires s.procs.Keys == {0, 1, 2} && s.died.Keys == {0} && s.procs[1].pc == Promoting
    ensures Reaches(s, t)
    ensures t.names == map[Root := 1, Next(0) := 1, Candidate(2) := 2] && t.numbers == s.numbers
    ensures t.procs.Keys == {0, 1, 2} && t.died.Keys == {0, 1} && t.procs[2] == s.procs[2]
  {
    hide Reaches;
    Promotes(s, 1);
    var names := map[Root := 1, Next(0) := 1, Candidate(2) := 2];
    assert (s.names - {Candidate(1)})[Root := 1] == names;
    var s1 := At(s, names, 1, Renamed(s.procs[1]));
    Dies(s1, 1);
    t := s1.(died := s1.died[1 := s1.clock], clock := s1.clock + 1);
    Then(s, s1, t);
  }

  lemma TwoWalksOn(s: State) returns (t: State)
    requires s.names == map[Root := 1, Next(0) := 1, Candidate(2) := 2] && s.numbers == map[0 := 10, 1 := 11, 2 := 12]
    requires s.procs.Keys == {0, 1, 2} && s.died.Keys == {0, 1} && s.procs[2] == Walker(Next(0), {Root}, AT_ZERO)
    ensures Reaches(s, t)
    ensures t == s.(procs := s.procs[2 := Walker(Next(1), {Root, Next(0)}, AT_ZERO + [Stale(Next(0), 1)])])
  {
    OneNumber(s.numbers, s.procs[2], 0);
    Walks(s, 2, 1);
    t := At(s, s.names, 2, Walked(s.procs[2], 1));
    hide Reaches;
    assert {Root} + {Next(0)} == {Root, Next(0)};
  }

  lemma OneNumber(numbers: map<Id, nat>, pr: Proc, c: Id)
    requires |pr.stale| == 1 && pr.stale[0].id == c
    ensures StaleNumbers(numbers, pr) == {NumberOf(numbers, c)}
  {
    assert pr.stale[0].id == c;
    forall x ensures x in StaleNumbers(numbers, pr) <==> x == NumberOf(numbers, c) {
      if x == NumberOf(numbers, c) {
        assert x == NumberOf(numbers, pr.stale[0].id);
      }
    }
  }

  lemma TwoNumbers(numbers: map<Id, nat>, pr: Proc, c: Id, d: Id)
    requires |pr.stale| == 2 && pr.stale[0].id == c && pr.stale[1].id == d
    ensures StaleNumbers(numbers, pr) == {NumberOf(numbers, c), NumberOf(numbers, d)}
  {
    assert NumberOf(numbers, pr.stale[0].id) in StaleNumbers(numbers, pr);
    assert NumberOf(numbers, pr.stale[1].id) in StaleNumbers(numbers, pr);
  }

  const REMEMBERED := Walker(Next(1), {Root, Next(0)}, AT_ZERO + [Stale(Next(0), 1)])

  /** The number of 0 is free, and given to 3. */
  lemma ThreeLinksAndDies(s: State) returns (t: State)
    requires s.names == map[Root := 1, Next(0) := 1, Candidate(2) := 2] && s.numbers == map[0 := 10, 1 := 11, 2 := 12]
    requires s.procs.Keys == {0, 1, 2} && s.died.Keys == {0, 1} && s.procs[2] == REMEMBERED
    ensures Reaches(s, t)
    ensures t.names == map[Root := 1, Next(0) := 1, Candidate(2) := 2, Candidate(3) := 3, Next(1) := 3]
    ensures t.numbers == map[0 := 10, 1 := 11, 2 := 12, 3 := 10]
    ensures t.procs.Keys == {0, 1, 2, 3} && t.died.Keys == {0, 1, 3} && t.procs[2] == REMEMBERED
  {
    assert !InUse(s, 0);
    assert Free(s, 10);
    var s1 := StartsAndWalks(s, 3, 10, 1);
    TakesTail(s1, 3);
    var s2 := At(s1, s1.names[Next(1) := 3], 3, TailTaken(s1.procs[3]));
    Dies(s2, 3);
    t := s2.(died := s2.died[3 := s2.clock], clock := s2.clock + 1);
    hide Reaches, Free;
    Then(s, s1, s2);
    Then(s, s2, t);
  }

  const FOURTH := Proc(
    Promoting, Next(3), {Root, Next(1), Next(3)}, AT_ONE + [Stale(Next(1), 3)], {Next(3)})

  lemma FourWalks(s: State) returns (t: State)
    requires s.names == map[Root := 1, Next(0) := 1, Candidate(2) := 2, Candidate(3) := 3, Next(1) := 3]
    requires s.numbers == map[0 := 10, 1 := 11, 2 := 12, 3 := 10]
    requires s.procs.Keys == {0, 1, 2, 3} && s.died.Keys == {0, 1, 3} && s.procs[2] == REMEMBERED
    ensures Reaches(s, t)
    ensures t.names
      == map[Root := 1, Next(0) := 1, Candidate(2) := 2, Candidate(3) := 3, Next(1) := 3, Candidate(4) := 4]
    ensures t.numbers == map[0 := 10, 1 := 11, 2 := 12, 3 := 10, 4 := 14]
    ensures t.procs.Keys == {0, 1, 2, 3, 4} && t.died.Keys == {0, 1, 3} && t.procs[2] == REMEMBERED
    ensures t.procs[4] == Walker(Next(3), {Root, Next(1)}, AT_ONE + [Stale(Next(1), 3)])
  {
    var s1 := StartsAndWalks(s, 4, 14, 1);
    hide Reaches, Free, StaleNumbers;
    OneNumber(s1.numbers, s1.procs[4], 1);
    Walks(s1, 4, 3);
    t := At(s1, s1.names, 4, Walked(s1.procs[4], 3));
    assert {Root} + {Next(1)} == {Root, Next(1)};
    Then(s, s1, t);
  }

  lemma FourLinks(s: State) returns (t: State)
    requires s.names
      == map[Root := 1, Next(0) := 1, Candidate(2) := 2, Candidate(3) := 3, Next(1) := 3, Candidate(4) := 4]
    requires s.numbers == map[0 := 10, 1 := 11, 2 := 12, 3 := 10, 4 := 14]
    requires s.procs.Keys == {0, 1, 2, 3, 4} && s.died.Keys == {0, 1, 3} && s.procs[2] == REMEMBERED
    requires s.procs[4] == Walker(Next(3), {Root, Next(1)}, AT_ONE + [Stale(Next(1), 3)])
    ensures Reaches(s, t)
    ensures t.names == map[Root := 1, Next(0) := 1, Candidate(2) := 2, Candidate(3) := 3, Next(1) := 3,
             Candidate(4) := 4, Next(3) := 4]
    ensures t.numbers == s.numbers && t.procs.Keys == s.procs.Keys && t.died == s.died
    ensures t.procs[2] == REMEMBERED && t.procs[4] == FOURTH
  {
    hide Reaches;
    TakesTail(s, 4);
    t := At(s, s.names[Next(3) := 4], 4, TailTaken(s.procs[4]));
    assert {Root, Next(1)} + {Next(3)} == {Root, Next(1), Next(3)};
  }

  /** The unlink that it comes to is one of those that lose. */
  lemma TwoMeetsDuplicate(s: State) returns (t: State)
    requires s.names == map[Root := 1, Next(0) := 1, Candidate(2) := 2, Candidate(3) := 3, Next(1) := 3,
               Candidate(4) := 4, Next(3) := 4]
    requires s.numbers == map[0 := 10, 1 := 11, 2 := 12, 3 := 10, 4 := 14]
    requires s.procs.Keys == {0, 1, 2, 3, 4} && s.died.Keys == {0, 1, 3}
    requires s.procs[2] == REMEMBERED && s.procs[4] == FOURTH
    ensures Reaches(s, t) && Enabled(t, 2, Go) && t.procs[2].pc.DroppingDuplicate? && t.procs[2].path in t.names
    ensures Alive(t, 4) && AtTail(t.procs[4].pc) && GoesOver(t.names, t.procs[4], t.procs[2].path)
  {
    TwoNumbers(s.numbers, s.procs[2], 0, 1);
    t := DropsDuplicate(s, 2, 3);
    hide Reaches;
    assert FOURTH.stale[1].path == Next(1);
    assert GoesOver(t.names, FOURTH, Next(1));
  }

  lemma ComesToLose() returns (s: State)
    ensures Reaches(INIT, s) && Enabled(s, 2, Go) && s.procs[2].pc.DroppingDuplicate? && s.procs[2].path in s.names
    ensures Alive(s, 4) && AtTail(s.procs[4].pc) && GoesOver(s.names, s.procs[4], s.procs[2].path)
  {
    hide Reaches, GoesOver;
    var zero := ZeroOwnsAndDies();
    s := TwoWalks(zero);
    Then(INIT, zero, s);
    var next := OneLinks(s);
    Then(INIT, s, next);
    s := OnePromotesAndDies(next);
    Then(INIT, next, s);
    next := TwoWalksOn(s);
    Then(INIT, s, next);
    s := ThreeLinksAndDies(next);
    Then(INIT, next, s);
    next := FourWalks(s);
    Then(INIT, s, next);
    s := FourLinks(next);
    Then(INIT, next, s);
    next := TwoMeetsDuplicate(s);
    Then(INIT, s, next);
    s := next;
  }

  /** With inode numbers that are used again, mutual exclusion fails: two live attempts own the claim. */
  lemma TwoOwners()
    ensures exists run :: Run(run) && OneUnlink(run) && OwnedTwice(run[|run| - 1])
  {
    var s := ComesToLose();
    InitHolds();
    ReachesKeeps(INIT, s);
    hide Inv, Reaches, Run, OneUnlink, OwnedTwice, GoesOver, Exec;
    var u := UnlinkLoses(s, 2, 4);
    var run := RunTo(s, 2, u);
  }

  /** The release of another attempt can rename the file of one that rolls back. */
  lemma ReleaseTakesAnother()
    ensures exists run :: Run(run) && OneUnlink(run) && Misnames(run[|run| - 1])
  {
    var s := ComesToLose();
    InitHolds();
    ReachesKeeps(INIT, s);
    hide Inv, Reaches, Run, OneUnlink, Misnamed, GoesOver, Exec, TwoPromote, Cut, RunInv;
    var path := s.procs[2].path;
    var t := CutsAndDies(s, 2, 4);
    TailIsCut(s, t, 4, path);
    var promoting := At(t, t.names, 4, t.procs[4].(pc := Promoting));
    ComesToPromotion(t, 4);
    Then(Exec(s, 2, Go), t, promoting);
    ReachesKeeps(t, promoting);
    CutAtPromotion(t, s.names, 4, path);
    var h, two := CutDoubles(promoting, s.names, 4, path);
    Then(Exec(s, 2, Go), promoting, two);
    var u := ReleaseMisnames(two, 4, h);
    assert Misnames(u);
    Then(Exec(s, 2, Go), two, u);
    var run := RunTo(s, 2, u);
  }

  /** There is no unlink of a "duplicate" but for one step, from the end of `a` to the start of `b`. */
  ghost predicate OneUnlink(run: seq<State>) {
    exists a, b :: Steps(a) && Steps(b) && run == a + b
  }

  lemma RunTo(s: State, p: Id, u: State) returns (run: seq<State>)
    requires Reaches(INIT, s) && Enabled(s, p, Go) && Reaches(Exec(s, p, Go), u)
    ensures Run(run) && OneUnlink(run) && run[|run| - 1] == u
  {
    var a :| Steps(a) && a[0] == INIT && a[|a| - 1] == s;
    var b :| Steps(b) && b[0] == Exec(s, p, Go) && b[|b| - 1] == u;
    run := a + b;
    hide Exec, Enabled;
    assert Step(s, Exec(s, p, Go));
    forall i | 0 <= i < |run| - 1 ensures Step(run[i], run[i + 1]) {
      if i < |a| - 1 {
        assert PlainStep(a[i], a[i + 1]);
      } else if i >= |a| {
        assert PlainStep(b[i - |a|], b[i - |a| + 1]);
      }
    }
  }
}

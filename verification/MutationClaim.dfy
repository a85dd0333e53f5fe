/** The hard-link mutation claim of src/openclaw/private-file.ts: a crash-tolerant lock made of
    `link`, `rename`, `unlink` and reads.

    Every acquisition attempt creates one file whose contents (a fresh owner id) are its own, so an
    `Id` stands for the attempt, for its file and for the contents of that file.  The successor
    name of a claim is a digest of its contents; `Next(id)` makes that digest injective.  The inode
    number of a file is given to another one once the file has no name and no open handle. */
module MutationClaim {
  import opened Common

  type Id = nat

  datatype Name = Root | Next(owner: Id) | Candidate(owner: Id) | Release(owner: Id)

  datatype Stale = Stale(path: Name, id: Id)

  /** Where an attempt stands: each constructor is one file operation, one read or one verdict. */
  datatype Pc =
    | Creating                                     // open the candidate file exclusively
    | CheckingCandidate
    | Linking                                      // link(candidate, path)
    | Opening(observed: Option<Id>)                // first read, or the second read of `observed`
    | Confirming(observed: Option<Id>, seen: Id)   // the path still names the opened inode?
    | Judging(seen: Id)                            // is the owner's process alive?
    | CheckingDuplicate(seen: Id)                  // does the path have the number of a claim that was met before?
    | DroppingDuplicate                            // unlink(path) of that file
    | CheckingLink
    | OpeningRoot
    | ConfirmingRoot(seen: Id)
    | Promoting                                    // rename(candidate, root)
    | CheckingPromotion
    | DroppingTail                                 // unlink(path) after promotion
    | ListingAliases                               // readdir
    | Sweeping(todo: set<Name>)                    // lstat of the entries still to visit
    | DroppingAlias(entry: Name, todo: set<Name>)  // unlink(entry)
    | DroppingCandidate                            // unlink(candidate) after linking the root
    | FinalCheck
    | Owned
    | Releasing                                    // rename(path, release path)
    | DroppingRelease                              // unlink(release path)
    | Cleaning(todo: set<Name>)                    // error path: linked paths still to check
    | DroppingLink(entry: Name, todo: set<Name>)   // error path: unlink(entry)
    | CleaningCandidate                            // error path: rm -f candidate
    | Done

  datatype Proc = Proc(pc: Pc, path: Name, visited: set<Name>, stale: seq<Stale>, linked: set<Name>)

  /** `numbers` gives each file's inode number, `died` stamps the crash of each attempt's process; `clock` is
      above every stamp. */
  datatype State = State(
    names: map<Name, Id>, numbers: map<Id, nat>, procs: map<Id, Proc>, died: map<Id, nat>, clock: nat)

  /** What one step of an attempt leaves behind. */
  datatype Effect = Effect(names: map<Name, Id>, pr: Proc)

  datatype Action =
    | Spawn                // a new acquisition starts
    | Die                  // its process crashes
    | Throw                // the current operation fails without effect
    | SayAlive             // the liveness oracle answers "alive"
    | Create(number: nat)  // the candidate file is created, with this inode number
    | Pick(n: Name)        // the next entry of a directory listing or of the linked paths
    | Go                   // the current operation runs

  const INIT := State(map[], map[], map[], map[], 0)

  predicate Alive(s: State, p: Id) {
    p in s.procs && p !in s.died
  }

  predicate Names(names: map<Name, Id>, n: Name, i: Id) {
    n in names && names[n] == i
  }

  /** A live attempt has its own file open from its creation to the end. */
  predicate Open(pc: Pc) {
    !pc.Creating? && !pc.CleaningCandidate? && !pc.Done?
  }

  /** A file is open while it is read and its path checked. */
  predicate Pins(pc: Pc, i: Id) {
    (pc.Confirming? || pc.ConfirmingRoot?) && pc.seen == i
  }

  /** The file system keeps a file, and its number, while it has a name or is open. */
  predicate InUse(s: State, i: Id) {
    || Linked(s.names, i)
    || (i in s.numbers && Alive(s, i) && Open(s.procs[i].pc))
    || Pinned(s, i)
  }

  predicate Linked(names: map<Name, Id>, i: Id) {
    exists n <- names :: names[n] == i
  }

  predicate Pinned(s: State, i: Id) {
    exists q <- s.procs :: Alive(s, q) && Pins(s.procs[q].pc, i)
  }

  predicate Free(s: State, number: nat) {
    forall i <- s.numbers | s.numbers[i] == number :: !InUse(s, i)
  }

  /** `assertClaimPathIdentity` with a link count: the file of `p` has exactly these names.  The source compares
      numbers; `p` has its file open, so no other file has its number (`OpenFilesHaveTheirNumber`). */
  predicate LinkedExactly(names: map<Name, Id>, p: Id, ns: set<Name>) {
    (forall n <- ns :: Names(names, n, p)) && |set n | n in names && names[n] == p| == |ns|
  }

  lemma ExactLinks(names: map<Name, Id>, p: Id, ns: set<Name>)
    requires forall n <- ns :: Names(names, n, p)
    requires forall n <- names | names[n] == p :: n in ns
    ensures LinkedExactly(names, p, ns)
  {
    assert (set n | n in names && names[n] == p) == ns;
  }

  /** POSIX rename: a no-op when both names are links of one inode. */
  function Rename(names: map<Name, Id>, from: Name, to: Name): map<Name, Id>
    requires from in names
  {
    if Names(names, to, names[from]) then names else (names - {from})[to := names[from]]
  }

  function Restart(pr: Proc): Proc {
    pr.(pc := Linking, path := Root, visited := {}, stale := [])
  }

  function Fail(pr: Proc): Proc {
    pr.(pc := Cleaning(pr.linked))
  }

  function StalePaths(pr: Proc): set<Name> {
    set j | 0 <= j < |pr.stale| :: pr.stale[j].path
  }

  function StaleIds(pr: Proc): set<Id> {
    set j | 0 <= j < |pr.stale| :: pr.stale[j].id
  }

  function NumberOf(numbers: map<Id, nat>, i: Id): Option<nat> {
    if i in numbers then Some(numbers[i]) else None
  }

  /** The inode numbers of the claims walked so far. */
  function StaleNumbers(numbers: map<Id, nat>, pr: Proc): set<Option<nat>> {
    set j | 0 <= j < |pr.stale| :: NumberOf(numbers, pr.stale[j].id)
  }

  /** The two reads agreed on a dead owner: remember it and step to its successor, unless its number was met. */
  function Advance(numbers: map<Id, nat>, pr: Proc, seen: Id): Proc {
    if NumberOf(numbers, seen) in StaleNumbers(numbers, pr) then pr.(pc := CheckingDuplicate(seen))
    else pr.(pc := Linking, stale := pr.stale + [Stale(pr.path, seen)], path := Next(seen))
  }

  predicate Enabled(s: State, p: Id, a: Action) {
    match a
    case Spawn => p !in s.procs
    case Die => Alive(s, p)
    case Throw => Alive(s, p) && s.procs[p].pc != Done
    case SayAlive => Alive(s, p) && s.procs[p].pc.Judging?
    case Create(number) => Alive(s, p) && s.procs[p].pc.Creating? && Free(s, number)
    case Pick(n) => Alive(s, p) && (s.procs[p].pc.Sweeping? || s.procs[p].pc.Cleaning?) && n in s.procs[p].pc.todo
    case Go =>
      && Alive(s, p) && !s.procs[p].pc.Done? && !s.procs[p].pc.Creating?
      // a live owner is never judged dead
      && (s.procs[p].pc.Judging? ==> s.procs[p].pc.seen in s.died)
      && (s.procs[p].pc.Sweeping? || s.procs[p].pc.Cleaning? ==> s.procs[p].pc.todo == {})
  }

  function Exec(s: State, p: Id, a: Action): State
    requires Enabled(s, p, a)
  {
    match a
    case Spawn => s.(procs := s.procs[p := Proc(Creating, Root, {}, [], {})])
    case Die => s.(died := s.died[p := s.clock], clock := s.clock + 1)
    case Throw => Apply(s, p, Effect(s.names, Thrown(s.procs[p])))
    case SayAlive => Apply(s, p, Effect(s.names, Fail(s.procs[p])))
    case Create(number) =>
      var created := Effect(s.names[Candidate(p) := p], s.procs[p].(pc := CheckingCandidate));
      Apply(s, p, created).(numbers := s.numbers[p := number])
    case Pick(n) => Apply(s, p, Effect(s.names, Picked(s.names, s.numbers, p, s.procs[p], n)))
    case Go => Apply(s, p, Operate(s.names, s.numbers, p, s.procs[p]))
  }

  function Apply(s: State, p: Id, e: Effect): State {
    s.(names := e.names, procs := s.procs[p := e.pr])
  }

  /** An exception: inside the acquisition it starts the rollback; a failed release leaves the
      claim as it is; a failed rollback step goes on with the next one. */
  function Thrown(pr: Proc): Proc {
    match pr.pc
    case Owned => pr
    case Releasing => pr.(pc := Owned)
    case DroppingRelease => pr.(pc := Done)
    case Cleaning(_) => pr
    case DroppingLink(_, todo) => pr.(pc := Cleaning(todo))
    case CleaningCandidate => pr.(pc := Done)
    case Done => pr
    case _ => Fail(pr)
  }

  /** One entry of a list: the sweep compares inode numbers, the rollback those of its own open file. */
  function Picked(names: map<Name, Id>, numbers: map<Id, nat>, p: Id, pr: Proc, n: Name): Proc
    requires pr.pc.Sweeping? || pr.pc.Cleaning?
  {
    var todo := pr.pc.todo - {n};
    if pr.pc.Sweeping? then
      pr.(pc := if n in names && NumberOf(numbers, names[n]) in StaleNumbers(numbers, pr) then DroppingAlias(n, todo)
                else Sweeping(todo))
    else
      pr.(pc := if Names(names, n, p) then DroppingLink(n, todo) else Cleaning(todo))
  }

  function Operate(names: map<Name, Id>, numbers: map<Id, nat>, p: Id, pr: Proc): Effect {
    if pr.pc.CheckingCandidate? || Walking(pr.pc) then OperateWalk(names, numbers, p, pr)
    else if AtTail(pr.pc) then OperateTail(names, p, pr)
    else if Promoted(pr.pc) || Installed(pr.pc) then OperateHolder(names, p, pr)
    else OperateRollback(names, p, pr)
  }

  function OperateWalk(names: map<Name, Id>, numbers: map<Id, nat>, p: Id, pr: Proc): Effect
    requires pr.pc.CheckingCandidate? || Walking(pr.pc)
  {
    match pr.pc
    case CheckingCandidate =>
      Effect(names, if LinkedExactly(names, p, {Candidate(p)}) then Restart(pr) else Fail(pr))
    case Linking =>
      if pr.path in pr.visited then Effect(names, Fail(pr))
      else OperateLink(names, p, pr.(visited := pr.visited + {pr.path}))
    case Opening(observed) =>
      Effect(names, if pr.path in names then pr.(pc := Confirming(observed, names[pr.path])) else Restart(pr))
    case Confirming(observed, seen) =>
      Effect(names, if !Names(names, pr.path, seen) then Restart(pr)
                    else if observed == None then pr.(pc := Judging(seen))
                    else if observed.value == seen then Advance(numbers, pr, seen)
                    else Restart(pr))
    case Judging(seen) => Effect(names, pr.(pc := Opening(Some(seen))))
    case CheckingDuplicate(seen) =>
      Effect(names, if pr.path in names && NumberOf(numbers, names[pr.path]) == NumberOf(numbers, seen)
                    then pr.(pc := DroppingDuplicate) else Fail(pr))
    case DroppingDuplicate =>
      if pr.path !in names then Effect(names, Fail(pr)) else Effect(names - {pr.path}, Restart(pr))
  }

  function OperateLink(names: map<Name, Id>, p: Id, pr: Proc): Effect {
    if pr.path in names then Effect(names, pr.(pc := Opening(None)))
    else if Candidate(p) !in names then Effect(names, Fail(pr))
    else Effect(names[pr.path := p], pr.(pc := CheckingLink, linked := pr.linked + {pr.path}))
  }

  function OperateTail(names: map<Name, Id>, p: Id, pr: Proc): Effect
    requires AtTail(pr.pc)
  {
    match pr.pc
    case CheckingLink =>
      Effect(names, if !LinkedExactly(names, p, {Candidate(p), pr.path}) then Fail(pr)
                    else pr.(pc := if pr.stale == [] then DroppingCandidate else OpeningRoot))
    case OpeningRoot =>
      Effect(names, if Root in names then pr.(pc := ConfirmingRoot(names[Root])) else Fail(pr))
    case ConfirmingRoot(seen) =>
      Effect(names, if Names(names, Root, seen) && pr.stale != [] && seen == pr.stale[0].id
                    then pr.(pc := Promoting) else Fail(pr))
    case Promoting =>
      if Candidate(p) !in names then Effect(names, Fail(pr))
      else Effect(Rename(names, Candidate(p), Root), pr.(pc := CheckingPromotion, linked := pr.linked + {Root}))
    case DroppingCandidate =>
      if Candidate(p) !in names then Effect(names, Fail(pr))
      else Effect(names - {Candidate(p)}, pr.(pc := FinalCheck))
  }

  function OperateHolder(names: map<Name, Id>, p: Id, pr: Proc): Effect
    requires Promoted(pr.pc) || Installed(pr.pc)
  {
    match pr.pc
    case CheckingPromotion =>
      Effect(names, if LinkedExactly(names, p, {Root, pr.path}) then pr.(pc := DroppingTail) else Fail(pr))
    case DroppingTail =>
      if pr.path !in names then Effect(names, Fail(pr))
      else Effect(names - {pr.path}, pr.(pc := ListingAliases, linked := pr.linked - {pr.path}, path := Root))
    case ListingAliases =>
      Effect(names, if LinkedExactly(names, p, {pr.path}) then pr.(pc := Sweeping(names.Keys - {pr.path}))
        else Fail(pr))
    case Sweeping(_) => Effect(names, pr.(pc := FinalCheck))
    case DroppingAlias(entry, todo) =>
      if entry !in names then Effect(names, Fail(pr)) else Effect(names - {entry}, pr.(pc := Sweeping(todo)))
    case FinalCheck =>
      Effect(names, if LinkedExactly(names, p, {pr.path}) then pr.(pc := Owned, linked := {}) else Fail(pr))
    case Owned =>
      Effect(names, if LinkedExactly(names, p, {pr.path}) then pr.(pc := Releasing) else pr)
    case Releasing =>
      if pr.path !in names then Effect(names, pr.(pc := Owned))
      else Effect(Rename(names, pr.path, Release(p)), pr.(pc := DroppingRelease))
  }

  function OperateRollback(names: map<Name, Id>, p: Id, pr: Proc): Effect {
    match pr.pc
    case DroppingRelease =>
      Effect(if LinkedExactly(names, p, {Release(p)}) then names - {Release(p)} else names, pr.(pc := Done))
    case Cleaning(_) => Effect(names, pr.(pc := CleaningCandidate))
    case DroppingLink(entry, todo) => Effect(names - {entry}, pr.(pc := Cleaning(todo)))
    case CleaningCandidate => Effect(names - {Candidate(p)}, pr.(pc := Done))
    case _ => Effect(names, pr)
  }

  /** Reading, before the claim path is linked. */
  predicate Walking(pc: Pc) {
    || pc.Linking? || pc.Opening? || pc.Confirming? || pc.Judging?
    || pc.CheckingDuplicate? || pc.DroppingDuplicate?
  }

  /** Linked at the end of the walk. */
  predicate AtTail(pc: Pc) {
    pc.CheckingLink? || pc.OpeningRoot? || pc.ConfirmingRoot? || pc.Promoting? || pc.DroppingCandidate?
  }

  /** Renamed over the root, the old link still there. */
  predicate Promoted(pc: Pc) {
    pc.CheckingPromotion? || pc.DroppingTail?
  }

  /** The root is the claim path. */
  predicate Installed(pc: Pc) {
    pc.ListingAliases? || pc.Sweeping? || pc.DroppingAlias? || pc.FinalCheck? || pc.Owned? || pc.Releasing?
  }

  predicate OnRollback(pc: Pc) {
    pc.Cleaning? || pc.DroppingLink? || pc.CleaningCandidate? || pc.Done?
  }

  ghost predicate Step(s: State, t: State) {
    exists p, a :: Enabled(s, p, a) && t == Exec(s, p, a)
  }

  ghost predicate Run(run: seq<State>) {
    run != [] && run[0] == INIT && forall i | 0 <= i < |run| - 1 :: Step(run[i], run[i + 1])
  }

  // ---------------------------------------------------------------------------------------------
  // The invariant

  /** Link order: a claim sits behind `c` only if `c` was dead before it could die itself. */
  predicate Before(died: map<Id, nat>, c: Id, i: Id) {
    c in died && (i in died ==> died[c] < died[i])
  }

  ghost predicate NamesInv(names: map<Name, Id>, died: map<Id, nat>) {
    forall n <- names ::
      && (n.Candidate? ==> names[n] == n.owner)
      && (n.Next? ==> Before(died, n.owner, names[n]))
  }

  /** The attempt has put its inode at the root and has not given it back. */
  predicate Holding(pr: Proc) {
    Promoted(pr.pc) || Installed(pr.pc) || (AtTail(pr.pc) && pr.path == Root)
  }

  predicate HasCandidate(pc: Pc) {
    pc.CheckingCandidate? || Walking(pc) || AtTail(pc)
  }

  /** The names an undisturbed attempt has given its inode. */
  predicate Has(p: Id, pr: Proc, n: Name) {
    || (n == Candidate(p) && HasCandidate(pr.pc))
    || (n == pr.path && (AtTail(pr.pc) || Promoted(pr.pc)))
    || (n == Root && (Promoted(pr.pc) || Installed(pr.pc)))
    || (n == Release(p) && pr.pc.DroppingRelease?)
  }

  /** Where its claim path is, whatever the others do. */
  ghost predicate PlaceInv(pr: Proc) {
    && (Installed(pr.pc) ==> pr.path == Root)
    && (Promoted(pr.pc) ==> pr.path.Next?)
    && (pr.pc.DroppingCandidate? ==> pr.path == Root)
    && (pr.pc.Sweeping? || pr.pc.DroppingAlias? ==> Root !in pr.pc.todo)
    && (pr.pc.DroppingAlias? ==> pr.pc.entry != Root)
    && (pr.pc.Cleaning? || pr.pc.DroppingLink? ==> pr.pc.todo <= pr.linked)
    && (pr.pc.DroppingLink? ==> pr.pc.entry in pr.linked && pr.pc.entry !in pr.pc.todo)
    && (forall n <- pr.linked :: n == Root || n.Next?)
  }

  ghost predicate LinksInv(names: map<Name, Id>, p: Id, pr: Proc) {
    && (!OnRollback(pr.pc) ==> forall n | n in names && names[n] == p :: Has(p, pr, n))
    && (AtTail(pr.pc) ==> Names(names, Candidate(p), p))
    && (AtTail(pr.pc) || Promoted(pr.pc) ==> Names(names, pr.path, p))
    && (Promoted(pr.pc) || Installed(pr.pc) ==> Names(names, Root, p))
    && (pr.pc.DroppingLink? ==> Names(names, pr.pc.entry, p))
    && (CanFail(pr) ==> forall n | n in names && names[n] == p :: n in pr.linked || n == Candidate(p))
    && (Release(p) in names ==> names[Release(p)] == p)
    && PlaceInv(pr)
  }

  /** The rollback has not begun, or is about to visit every linked path. */
  predicate CanFail(pr: Proc) {
    if pr.pc.Cleaning? then pr.pc.todo == pr.linked
    else !OnRollback(pr.pc) && !pr.pc.Owned? && !pr.pc.Releasing? && !pr.pc.DroppingRelease?
  }

  /** The claims walked so far are linked by successor names, from the root on. */
  ghost predicate Chained(stale: seq<Stale>) {
    forall j {:trigger stale[j].path} | 0 <= j < |stale| ::
      stale[j].path == if j == 0 then Root else Next(stale[j - 1].id)
  }

  /** Their owners are dead, and died in the order of the walk. */
  ghost predicate InCrashOrder(died: map<Id, nat>, stale: seq<Stale>) {
    && AllDead(died, stale)
    && (forall i, j {:trigger stale[i].id, stale[j].id} | 0 <= i < j < |stale| ::
          died[stale[i].id] < died[stale[j].id])
  }

  ghost predicate AllDead(died: map<Id, nat>, stale: seq<Stale>) {
    forall j {:trigger stale[j].id} | 0 <= j < |stale| :: stale[j].id in died
  }

  function EndOf(stale: seq<Stale>): Name {
    if stale == [] then Root else Next(stale[|stale| - 1].id)
  }

  ghost predicate WalkInv(died: map<Id, nat>, pr: Proc) {
    && Chained(pr.stale)
    && InCrashOrder(died, pr.stale)
    && (Walking(pr.pc) || AtTail(pr.pc) ==> pr.path == EndOf(pr.stale))
    && (Walking(pr.pc) ==> pr.visited <= StalePaths(pr) + if pr.pc.Linking? then {} else {pr.path})
    && (pr.pc.Opening? || pr.pc.Confirming? ==> pr.pc.observed.Some? ==> pr.pc.observed.value in died)
    && (pr.pc.OpeningRoot? || pr.pc.ConfirmingRoot? || pr.pc.Promoting? ==> pr.stale != [])
    && (pr.pc.CheckingDuplicate? || pr.pc.DroppingDuplicate? ==> pr.stale != [])
    && (pr.pc.Creating? ==> pr.stale == [])
    && (pr.pc.CheckingDuplicate? ==> pr.pc.seen in died && pr.pc.seen !in StaleIds(pr))
  }

  ghost predicate InPlace(names: map<Name, Id>, stale: seq<Stale>) {
    forall j {:trigger stale[j].path} | 0 <= j < |stale| :: Names(names, stale[j].path, stale[j].id)
  }

  /** While the root still names the first claim of the walk, the whole walk is still in place. */
  ghost predicate Frozen(names: map<Name, Id>, stale: seq<Stale>) {
    stale != [] && Names(names, Root, stale[0].id) ==> InPlace(names, stale)
  }

  ghost predicate ProcInv(names: map<Name, Id>, died: map<Id, nat>, p: Id, pr: Proc) {
    && LinksInv(names, p, pr)
    && WalkInv(died, pr)
    && (Walking(pr.pc) || AtTail(pr.pc) ==> Frozen(names, pr.stale))
    && (pr.pc.ConfirmingRoot? && Names(names, Root, pr.stale[0].id) ==> pr.pc.seen == pr.stale[0].id)
    && (pr.pc.Promoting? ==> Names(names, Root, pr.stale[0].id))
  }

  /** An attempt has a number once its file is created, and before it renames anything to its release path. */
  ghost predicate Numbered(s: State) {
    && s.numbers.Keys <= s.procs.Keys
    && (forall n <- s.names | n.Release? :: n.owner in s.numbers)
    && (forall p | Alive(s, p) && s.procs[p].pc.Creating? :: p !in s.numbers)
    && (forall p | Alive(s, p) && !s.procs[p].pc.Creating? && !OnRollback(s.procs[p].pc) :: p in s.numbers)
  }

  /** Files in use have different numbers. */
  ghost predicate NumberInv(s: State) {
    && Numbered(s)
    && (forall i | InUse(s, i) :: i in s.numbers)
    && (forall i, j | InUse(s, i) && InUse(s, j) && i != j :: NumberOf(s.numbers, i) != NumberOf(s.numbers, j))
  }

  /** Created while `p` was at the root: it has read nothing else, and linked nothing. */
  ghost predicate Young(names: map<Name, Id>, p: Id, x: Id, pr: Proc) {
    || pr.pc.CheckingCandidate?
    || (Walking(pr.pc) && pr.stale == [] && pr.path == Root && match pr.pc
         case Opening(observed) => observed == None
         case Confirming(observed, seen) => observed == None && seen == p
         case Judging(seen) => seen == p
         case _ => pr.pc.Linking?)
    || (OnRollback(pr.pc) && forall n | Names(names, n, x) :: n == Candidate(x))
  }

  /** The number of `x` is one of those that the holder `p` sweeps. */
  predicate Exposed(s: State, p: Id, x: Id) {
    && Alive(s, p) && Alive(s, x) && p != x && (Promoted(s.procs[p].pc) || Installed(s.procs[p].pc))
    && x in s.numbers && NumberOf(s.numbers, x) in StaleNumbers(s.numbers, s.procs[p])
  }

  ghost predicate YoungInv(s: State) {
    forall p, x | Exposed(s, p, x) :: Young(s.names, p, x, s.procs[x])
  }

  /** The next name to be swept is of a dead owner, or a candidate with a swept number. */
  ghost predicate AliasInv(s: State) {
    forall p | Alive(s, p) && s.procs[p].pc.DroppingAlias? :: Removable(s, p, s.procs[p].pc.entry)
  }

  predicate Removable(s: State, p: Id, entry: Name)
    requires p in s.procs
  {
    || (entry in s.names && s.names[entry] in s.died)
    || (entry.Candidate? && entry.owner in s.numbers &&
          NumberOf(s.numbers, entry.owner) in StaleNumbers(s.numbers, s.procs[p]))
  }

  /** What an attempt knows of itself whatever the others do: a file that it must clean up is at a path that it has
      linked, unless another attempt has renamed it. */
  ghost predicate Traced(names: map<Name, Id>, p: Id, pr: Proc) {
    CanFail(pr) ==> forall n | Names(names, n, p) :: n in pr.linked || n == Candidate(p) || n.Release?
  }

  ghost predicate AttemptsInv(s: State) {
    && s.died.Keys <= s.procs.Keys && s.names.Values <= s.procs.Keys
    && (forall i <- s.died :: s.died[i] < s.clock)
    && NamesInv(s.names, s.died)
    && (forall p | Alive(s, p) :: Grounded(s.names, s.died, p, s.procs[p]))
  }

  ghost predicate Grounded(names: map<Name, Id>, died: map<Id, nat>, p: Id, pr: Proc) {
    WalkInv(died, pr) && PlaceInv(pr) && Traced(names, p, pr)
  }

  /** What holds in every run. */
  ghost predicate RunInv(s: State) {
    AttemptsInv(s) && NumberInv(s)
  }

  /** What holds besides where the unlink of a "duplicate" spares what other live attempts rely on. */
  ghost predicate Inv(s: State) {
    && RunInv(s)
    && (forall p | Alive(s, p) :: ProcInv(s.names, s.died, p, s.procs[p]))
    && YoungInv(s) && AliasInv(s)
  }

  // ---------------------------------------------------------------------------------------------
  // One step keeps the invariant

  lemma ProcOf(s: State, p: Id)
    requires Inv(s) && Alive(s, p)
    ensures ProcInv(s.names, s.died, p, s.procs[p]) && NamesInv(s.names, s.died)
  {
  }

  /** A step of `p` that touches only names of its own file. */
  ghost predicate OwnNames(names: map<Name, Id>, names': map<Name, Id>, p: Id) {
    forall n | n in names || n in names' ::
      || (n in names && Names(names', n, names[n]))
      || ((n in names ==> names[n] == p) && (n in names' ==> names'[n] == p && (n.Release? ==> n == Release(p))))
  }

  /** A step of the holder that also replaces or drops names of dead owners, or the candidate of a young attempt. */
  ghost predicate DeadNames(names: map<Name, Id>, names': map<Name, Id>, died: map<Id, nat>, p: Id, young: set<Id>) {
    && Names(names', Root, p)
    && forall n | n in names || n in names' ::
      || (n in names && Names(names', n, names[n]))
      || (n in names && n !in names' && n == Candidate(names[n]) && names[n] in young)
      || ((n in names ==> names[n] == p || names[n] in died) && (n in names' ==> names'[n] == p && !n.Release?))
  }

  ghost predicate AloneAtRoot(s: State, p: Id) {
    forall q | Alive(s, q) && q != p :: !Holding(s.procs[q]) && !s.procs[q].pc.Promoting?
  }

  /** A live attempt relies on the name: it is its own, or of the chain that it has walked, or next in its sweep. */
  predicate Needs(s: State, r: Id, n: Name)
    requires r in s.procs
  {
    var pr := s.procs[r];
    || Names(s.names, n, r)
    || (pr.pc.DroppingAlias? && pr.pc.entry == n)
    || ((Walking(pr.pc) || AtTail(pr.pc)) && pr.stale != [] && Names(s.names, Root, pr.stale[0].id) &&
      n in StalePaths(pr))
  }

  /** The unlink of a "duplicate" takes nothing that another live attempt relies on. */
  ghost predicate Spares(s: State, p: Id, a: Action)
    requires Enabled(s, p, a)
  {
    a == Go && s.procs[p].pc.DroppingDuplicate? && s.procs[p].path in s.names ==>
      forall r | Alive(s, r) && r != p :: !Needs(s, r, s.procs[p].path)
  }

  lemma OthersKeep(s: State, p: Id, e: Effect)
    requires Inv(s) && Alive(s, p) && OwnNames(s.names, e.names, p)
    ensures forall q | Alive(s, q) && q != p :: ProcInv(e.names, s.died, q, s.procs[q])
  {
    hide RunInv;
    forall q | Alive(s, q) && q != p
      ensures ProcInv(e.names, s.died, q, s.procs[q])
    {
      var pr := s.procs[q];
      assert ProcInv(s.names, s.died, q, pr);
      assert LinksInv(e.names, q, pr);
    }
  }

  lemma OthersKeepDead(s: State, p: Id, e: Effect, young: set<Id>)
    requires Inv(s) && Alive(s, p) && DeadNames(s.names, e.names, s.died, p, young) && AloneAtRoot(s, p)
    requires forall x <- young | Alive(s, x) :: !AtTail(s.procs[x].pc)
    ensures forall q | Alive(s, q) && q != p :: ProcInv(e.names, s.died, q, s.procs[q])
  {
    forall q | Alive(s, q) && q != p
      ensures ProcInv(e.names, s.died, q, s.procs[q])
    {
      OtherKeepsDead(s, p, e, young, q);
    }
  }

  lemma OtherKeepsDead(s: State, p: Id, e: Effect, young: set<Id>, q: Id)
    requires Inv(s) && Alive(s, p) && DeadNames(s.names, e.names, s.died, p, young) && AloneAtRoot(s, p)
    requires Alive(s, q) && q != p && (q in young ==> !AtTail(s.procs[q].pc))
    ensures ProcInv(e.names, s.died, q, s.procs[q])
  {
    var pr := s.procs[q];
    assert ProcInv(s.names, s.died, q, pr);
    LinkKeepsDead(s.names, e.names, s.died, p, young, q, pr);
  }

  lemma LinkKeepsDead(
    names: map<Name, Id>, names': map<Name, Id>, died: map<Id, nat>, p: Id, young: set<Id>, q: Id, pr: Proc)
    requires LinksInv(names, q, pr) && DeadNames(names, names', died, p, young) && NamesInv(names, died)
    requires !Holding(pr) && (q in young ==> !AtTail(pr.pc)) && q != p && q !in died
    ensures LinksInv(names', q, pr)
  {
  }

  lemma OthersKeepSpared(s: State, p: Id, path: Name)
    requires Inv(s) && Alive(s, p) && path in s.names && path.Next?
    requires forall r | Alive(s, r) && r != p :: !Needs(s, r, path)
    ensures forall q | Alive(s, q) && q != p :: ProcInv(s.names - {path}, s.died, q, s.procs[q])
  {
    hide Chained, InCrashOrder, LinkedExactly, InUse, CanFail;
    forall q | Alive(s, q) && q != p
      ensures ProcInv(s.names - {path}, s.died, q, s.procs[q])
    {
      var pr := s.procs[q];
      assert ProcInv(s.names, s.died, q, pr) && !Needs(s, q, path);
      assert LinksInv(s.names - {path}, q, pr);
    }
  }

  /** Two walks from one unchanged root are prefixes of each other. */
  lemma {:induction false} SameWalk(names: map<Name, Id>, a: seq<Stale>, b: seq<Stale>, j: nat)
    requires Chained(a) && Chained(b) && InPlace(names, a) && InPlace(names, b)
    requires j < |a| && j < |b|
    ensures a[j] == b[j]
  {
    if j > 0 {
      SameWalk(names, a, b, j - 1);
    }
    assert a[j].path == b[j].path;
  }

  /** A longer walk goes on where the shorter one ends. */
  lemma GoesOn(names: map<Name, Id>, a: seq<Stale>, b: seq<Stale>)
    requires Chained(a) && InPlace(names, a) && Chained(b) && InPlace(names, b)
    requires 0 < |a| < |b|
    ensures Names(names, EndOf(a), b[|a|].id)
  {
    SameWalk(names, a, b, |a| - 1);
    assert b[|a|].path == EndOf(a);
  }

  /** No walk goes past a live claim. */
  lemma NotBeyondLive(names: map<Name, Id>, died: map<Id, nat>, p: Id, a: seq<Stale>, b: seq<Stale>)
    requires Chained(a) && InPlace(names, a) && a != []
    requires Chained(b) && InPlace(names, b) && AllDead(died, b)
    requires p !in died && Names(names, EndOf(a), p)
    ensures |b| <= |a|
  {
    hide Chained, InPlace, AllDead;
    if |a| < |b| {
      GoesOn(names, a, b);
      DeadAt(died, b, |a|);
    }
  }

  lemma DeadAt(died: map<Id, nat>, b: seq<Stale>, k: nat)
    requires AllDead(died, b) && k < |b|
    ensures b[k].id in died
  {
  }

  /** The chain of one root ends in at most one live claim. */
  lemma OneTail(names: map<Name, Id>, died: map<Id, nat>, p: Id, a: seq<Stale>, q: Id, b: seq<Stale>)
    requires Chained(a) && InPlace(names, a) && AllDead(died, a) && a != []
    requires Chained(b) && InPlace(names, b) && AllDead(died, b) && b != []
    requires p !in died && Names(names, EndOf(a), p)
    requires q !in died && Names(names, EndOf(b), q)
    ensures p == q
  {
    hide Chained, InPlace, AllDead;
    NotBeyondLive(names, died, p, a, b);
    NotBeyondLive(names, died, q, b, a);
    SameWalk(names, a, b, |a| - 1);
  }

  lemma PromotionIsExclusive(s: State, p: Id)
    requires Inv(s) && Alive(s, p) && s.procs[p].pc.Promoting?
    ensures AloneAtRoot(s, p)
  {
    forall q | Alive(s, q) && q != p
      ensures !Holding(s.procs[q]) && !s.procs[q].pc.Promoting?
    {
      assert ProcInv(s.names, s.died, p, s.procs[p]) && ProcInv(s.names, s.died, q, s.procs[q]);
      if s.procs[q].pc.Promoting? {
        OneTail(s.names, s.died, p, s.procs[p].stale, q, s.procs[q].stale);
      }
    }
  }

  lemma HoldingIsExclusive(s: State, p: Id)
    requires Inv(s) && Alive(s, p) && Holding(s.procs[p])
    ensures Names(s.names, Root, p) && AloneAtRoot(s, p)
  {
    hide RunInv;
    assert ProcInv(s.names, s.died, p, s.procs[p]);
    forall q | Alive(s, q) && q != p
      ensures !Holding(s.procs[q]) && !s.procs[q].pc.Promoting?
    {
      assert ProcInv(s.names, s.died, q, s.procs[q]);
    }
  }

  /** One more claim of a dead owner, read where the walk ended. */
  lemma WalkGrows(names: map<Name, Id>, died: map<Id, nat>, stale: seq<Stale>, seen: Id)
    requires NamesInv(names, died) && Chained(stale) && InCrashOrder(died, stale) && Frozen(names, stale)
    requires Names(names, EndOf(stale), seen) && seen in died
    ensures var grown := stale + [Stale(EndOf(stale), seen)];
      Chained(grown) && InCrashOrder(died, grown) && Frozen(names, grown)
    ensures forall j | 0 <= j < |stale| :: stale[j].id != seen
  {
    ChainedGrows(stale, seen);
    FrozenGrows(names, stale, seen);
    CrashOrderGrows(names, died, stale, seen);
  }

  lemma ChainedGrows(stale: seq<Stale>, seen: Id)
    requires Chained(stale)
    ensures Chained(stale + [Stale(EndOf(stale), seen)])
  {
    var grown := stale + [Stale(EndOf(stale), seen)];
    forall j | 0 <= j < |grown|
      ensures grown[j].path == if j == 0 then Root else Next(grown[j - 1].id)
    {
      if j < |stale| {
        assert grown[j].path == stale[j].path;
      }
    }
  }

  lemma FrozenGrows(names: map<Name, Id>, stale: seq<Stale>, seen: Id)
    requires Frozen(names, stale) && Names(names, EndOf(stale), seen)
    ensures Frozen(names, stale + [Stale(EndOf(stale), seen)])
  {
    var grown := stale + [Stale(EndOf(stale), seen)];
    hide EndOf;
    if stale != [] && InPlace(names, stale) {
      assert InPlace(names, grown);
    }
  }

  lemma CrashOrderGrows(names: map<Name, Id>, died: map<Id, nat>, stale: seq<Stale>, seen: Id)
    requires NamesInv(names, died) && InCrashOrder(died, stale) && Names(names, EndOf(stale), seen) && seen in died
    ensures InCrashOrder(died, stale + [Stale(EndOf(stale), seen)])
    ensures forall j | 0 <= j < |stale| :: stale[j].id != seen
  {
    if stale != [] {
      assert Before(died, stale[|stale| - 1].id, seen);
    }
  }

  /** Up to the link an attempt has no name but its candidate's, wherever it stands. */
  lemma SameLinks(names: map<Name, Id>, p: Id, pr: Proc, pr': Proc)
    requires LinksInv(names, p, pr) && pr'.linked == pr.linked
    requires pr.pc.CheckingCandidate? || Walking(pr.pc)
    requires pr'.pc.CheckingCandidate? || Walking(pr'.pc)
    ensures LinksInv(names, p, pr')
  {
  }

  lemma RestartKeeps(names: map<Name, Id>, died: map<Id, nat>, p: Id, pr: Proc)
    requires ProcInv(names, died, p, pr) && (pr.pc.CheckingCandidate? || Walking(pr.pc))
    ensures ProcInv(names, died, p, Restart(pr))
  {
    SameLinks(names, p, pr, Restart(pr));
    RestartWalks(names, died, pr);
    hide LinksInv, WalkInv, Frozen;
  }

  lemma RestartWalks(names: map<Name, Id>, died: map<Id, nat>, pr: Proc)
    ensures WalkInv(died, Restart(pr)) && Frozen(names, Restart(pr).stale)
  {
  }

  lemma DuplicateWalks(died: map<Id, nat>, pr: Proc, seen: Id)
    requires WalkInv(died, pr) && pr.pc.Confirming? && seen in died && seen !in StaleIds(pr) && pr.stale != []
    ensures WalkInv(died, pr.(pc := CheckingDuplicate(seen)))
  {
    hide Chained, InCrashOrder;
  }

  lemma GrownWalks(died: map<Id, nat>, pr: Proc, seen: Id)
    requires WalkInv(died, pr) && pr.pc.Confirming?
    requires var grown := pr.stale + [Stale(pr.path, seen)]; Chained(grown) && InCrashOrder(died, grown)
    ensures WalkInv(died, pr.(pc := Linking, stale := pr.stale + [Stale(pr.path, seen)], path := Next(seen)))
  {
    VisitedGrows(pr, seen);
    var grown := pr.stale + [Stale(pr.path, seen)];
    assert EndOf(grown) == Next(seen);
    hide Chained, InCrashOrder, EndOf;
  }

  lemma AdvanceKeeps(names: map<Name, Id>, numbers: map<Id, nat>, died: map<Id, nat>, p: Id, pr: Proc, seen: Id)
    requires p !in died && NamesInv(names, died) && ProcInv(names, died, p, pr) && pr.pc.Confirming?
    requires Names(names, pr.path, seen) && seen in died
    ensures ProcInv(names, died, p, Advance(numbers, pr, seen))
    ensures seen !in StaleIds(pr)
    ensures !Advance(numbers, pr, seen).pc.CheckingDuplicate? ==>
      Advance(numbers, pr, seen).stale == pr.stale + [Stale(pr.path, seen)]
  {
    SameLinks(names, p, pr, Advance(numbers, pr, seen));
    WalkGrows(names, died, pr.stale, seen);
    assert pr.path == EndOf(pr.stale);
    if NumberOf(numbers, seen) in StaleNumbers(numbers, pr) {
      DuplicateWalks(died, pr, seen);
    } else {
      GrownWalks(died, pr, seen);
    }
    hide LinksInv, NamesInv, WalkInv, Frozen;
  }

  lemma VisitedGrows(pr: Proc, seen: Id)
    ensures StalePaths(pr.(stale := pr.stale + [Stale(pr.path, seen)])) == StalePaths(pr) + {pr.path}
  {
    var grown := pr.stale + [Stale(pr.path, seen)];
    assert forall j | 0 <= j < |pr.stale| :: grown[j] == pr.stale[j];
    assert grown[|pr.stale|].path == pr.path;
  }

  ghost predicate Ready(names: map<Name, Id>, died: map<Id, nat>, p: Id, pr: Proc) {
    && p !in died && NamesInv(names, died) && ProcInv(names, died, p, pr)
    && (pr.pc.Judging? ==> pr.pc.seen in died)
  }

  /** The step keeps the invariant of `p`, and touches names of `p` only or also those of dead owners. */
  ghost predicate Kept(names: map<Name, Id>, died: map<Id, nat>, p: Id, e: Effect, dead: bool) {
    && NamesInv(e.names, died) && ProcInv(e.names, died, p, e.pr)
    && if dead then DeadNames(names, e.names, died, p, {}) else OwnNames(names, e.names, p)
  }

  lemma CreatingKeeps(names: map<Name, Id>, died: map<Id, nat>, p: Id, pr: Proc)
    requires Ready(names, died, p, pr) && pr.pc.Creating?
    ensures Kept(names, died, p, Effect(names[Candidate(p) := p], pr.(pc := CheckingCandidate)), false)
  {
  }

  lemma OwnUnchanged(names: map<Name, Id>, p: Id)
    ensures OwnNames(names, names, p)
  {
  }

  lemma CandidateKeeps(names: map<Name, Id>, numbers: map<Id, nat>, died: map<Id, nat>, p: Id, pr: Proc)
    requires Ready(names, died, p, pr) && pr.pc.CheckingCandidate?
    ensures Kept(names, died, p, OperateWalk(names, numbers, p, pr), false)
  {
    RestartKeeps(names, died, p, pr);
    ThrowKeeps(names, died, p, pr);
    OwnUnchanged(names, p);
    hide ProcInv, NamesInv, LinkedExactly, OwnNames;
  }

  lemma OpeningKeeps(names: map<Name, Id>, numbers: map<Id, nat>, died: map<Id, nat>, p: Id, pr: Proc)
    requires Ready(names, died, p, pr) && pr.pc.Opening?
    ensures Kept(names, died, p, OperateWalk(names, numbers, p, pr), false)
  {
    RestartKeeps(names, died, p, pr);
    OwnUnchanged(names, p);
    if pr.path in names {
      SameLinks(names, p, pr, pr.(pc := Confirming(pr.pc.observed, names[pr.path])));
    }
    hide LinksInv, NamesInv, Chained, InCrashOrder, Frozen, OwnNames;
  }

  lemma JudgingKeeps(names: map<Name, Id>, numbers: map<Id, nat>, died: map<Id, nat>, p: Id, pr: Proc)
    requires Ready(names, died, p, pr) && pr.pc.Judging?
    ensures Kept(names, died, p, OperateWalk(names, numbers, p, pr), false)
  {
    SameLinks(names, p, pr, pr.(pc := Opening(Some(pr.pc.seen))));
    OwnUnchanged(names, p);
    hide LinksInv, NamesInv, Chained, InCrashOrder, Frozen, OwnNames;
  }

  lemma ConfirmingKeeps(names: map<Name, Id>, numbers: map<Id, nat>, died: map<Id, nat>, p: Id, pr: Proc)
    requires Ready(names, died, p, pr) && pr.pc.Confirming?
    ensures Kept(names, died, p, OperateWalk(names, numbers, p, pr), false)
  {
    RestartKeeps(names, died, p, pr);
    OwnUnchanged(names, p);
    if Names(names, pr.path, pr.pc.seen) {
      if pr.pc.observed == None {
        SameLinks(names, p, pr, pr.(pc := Judging(pr.pc.seen)));
      } else if pr.pc.observed.value == pr.pc.seen {
        AdvanceKeeps(names, numbers, died, p, pr, pr.pc.seen);
      }
    }
    hide LinksInv, NamesInv, Chained, InCrashOrder, Frozen, OwnNames, Advance;
  }

  lemma CheckingDuplicateKeeps(names: map<Name, Id>, numbers: map<Id, nat>, died: map<Id, nat>, p: Id, pr: Proc)
    requires Ready(names, died, p, pr) && pr.pc.CheckingDuplicate?
    ensures Kept(names, died, p, OperateWalk(names, numbers, p, pr), false)
  {
    ThrowKeeps(names, died, p, pr);
    OwnUnchanged(names, p);
    SameLinks(names, p, pr, pr.(pc := DroppingDuplicate));
    hide LinksInv, NamesInv, Chained, InCrashOrder, Frozen, OwnNames;
  }

  /** The "chain contains a cycle" error cannot happen: the end of a walk is a name not visited yet. */
  lemma WalkNeverCycles(died: map<Id, nat>, pr: Proc)
    requires WalkInv(died, pr) && pr.pc.Linking?
    ensures pr.path !in StalePaths(pr) && pr.path !in pr.visited
  {
    forall j | 0 <= j < |pr.stale|
      ensures pr.stale[j].path != pr.path
    {
      if j > 0 {
        assert died[pr.stale[j - 1].id] < died[pr.stale[|pr.stale| - 1].id];
      }
    }
  }

  lemma NewLinkKeeps(names: map<Name, Id>, died: map<Id, nat>, p: Id, pr: Proc)
    requires p !in died && NamesInv(names, died) && ProcInv(names, died, p, pr)
    requires pr.pc.Linking? && pr.path !in names && Names(names, Candidate(p), p)
    ensures var pr' := pr.(pc := CheckingLink, visited := pr.visited + {pr.path}, linked := pr.linked + {pr.path});
      ProcInv(names[pr.path := p], died, p, pr')
    ensures NamesInv(names[pr.path := p], died) && OwnNames(names, names[pr.path := p], p)
  {
    hide StalePaths, StaleIds;
    NewLinkLinks(names, p, pr);
    NewLinkFreezes(names, pr.stale, pr.path, p);
    hide LinksInv, Chained, InCrashOrder, Frozen;
  }

  lemma NewLinkLinks(names: map<Name, Id>, p: Id, pr: Proc)
    requires LinksInv(names, p, pr) && pr.pc.Linking? && pr.path !in names && Names(names, Candidate(p), p)
    requires pr.path == Root || pr.path.Next?
    ensures var pr' := pr.(pc := CheckingLink, visited := pr.visited + {pr.path}, linked := pr.linked + {pr.path});
      LinksInv(names[pr.path := p], p, pr')
  {
  }

  lemma NewLinkFreezes(names: map<Name, Id>, stale: seq<Stale>, path: Name, p: Id)
    requires Frozen(names, stale) && path !in names && (stale == [] || path != Root)
    ensures Frozen(names[path := p], stale)
  {
  }

  lemma OperateLinkKeeps(names: map<Name, Id>, died: map<Id, nat>, p: Id, pr: Proc)
    requires Ready(names, died, p, pr) && pr.pc.Linking?
    ensures Kept(names, died, p, OperateLink(names, p, pr.(visited := pr.visited + {pr.path})), false)
  {
    OwnUnchanged(names, p);
    if pr.path in names {
      TakenKeeps(names, died, p, pr);
    } else if Candidate(p) in names {
      NewLinkKeeps(names, died, p, pr);
    } else {
      UnlinkedKeeps(names, died, p, pr);
    }
    hide ProcInv, NamesInv, OwnNames;
  }

  lemma TakenKeeps(names: map<Name, Id>, died: map<Id, nat>, p: Id, pr: Proc)
    requires ProcInv(names, died, p, pr) && pr.pc.Linking?
    ensures ProcInv(names, died, p, pr.(pc := Opening(None), visited := pr.visited + {pr.path}))
  {
    var next := pr.(pc := Opening(None), visited := pr.visited + {pr.path});
    SameLinks(names, p, pr, next);
    assert StalePaths(next) == StalePaths(pr);
    hide LinksInv, Chained, InCrashOrder, Frozen;
  }

  lemma UnlinkedKeeps(names: map<Name, Id>, died: map<Id, nat>, p: Id, pr: Proc)
    requires ProcInv(names, died, p, pr) && pr.pc.Linking?
    ensures ProcInv(names, died, p, Fail(pr.(visited := pr.visited + {pr.path})))
  {
    hide Chained, InCrashOrder, Frozen;
  }

  lemma LinkingKeeps(names: map<Name, Id>, numbers: map<Id, nat>, died: map<Id, nat>, p: Id, pr: Proc)
    requires Ready(names, died, p, pr) && pr.pc.Linking?
    ensures Kept(names, died, p, OperateWalk(names, numbers, p, pr), false)
  {
    WalkNeverCycles(died, pr);
    OperateLinkKeeps(names, died, p, pr);
  }

  lemma CheckingLinkKeeps(names: map<Name, Id>, died: map<Id, nat>, p: Id, pr: Proc)
    requires Ready(names, died, p, pr) && (pr.pc.CheckingLink?)
    ensures Kept(names, died, p, OperateTail(names, p, pr), false)
  {
    hide Chained, InCrashOrder, Frozen, LinkedExactly;
  }

  lemma DroppingCandidateKeeps(names: map<Name, Id>, died: map<Id, nat>, p: Id, pr: Proc)
    requires Ready(names, died, p, pr) && (pr.pc.DroppingCandidate?)
    ensures Kept(names, died, p, OperateTail(names, p, pr), false)
  {
  }

  lemma RootReadKeeps(names: map<Name, Id>, died: map<Id, nat>, p: Id, pr: Proc)
    requires Ready(names, died, p, pr) && (pr.pc.OpeningRoot? || pr.pc.ConfirmingRoot?)
    ensures Kept(names, died, p, OperateTail(names, p, pr), false)
  {
    hide Chained, InCrashOrder, Frozen, NamesInv;
  }

  lemma PromotionLinks(names: map<Name, Id>, p: Id, pr: Proc)
    requires LinksInv(names, p, pr) && pr.pc.Promoting? && pr.path.Next?
    ensures var pr' := pr.(pc := CheckingPromotion, linked := pr.linked + {Root});
      LinksInv((names - {Candidate(p)})[Root := p], p, pr')
  {
  }

  lemma PromotionKeeps(names: map<Name, Id>, died: map<Id, nat>, p: Id, pr: Proc)
    requires Ready(names, died, p, pr) && pr.pc.Promoting?
    ensures Kept(names, died, p, OperateTail(names, p, pr), true)
  {
    var names' := (names - {Candidate(p)})[Root := p];
    assert OperateTail(names, p, pr).names == names';
    PromotionLinks(names, p, pr);
    assert NamesInv(names', died);
  }

  lemma PromotedKeeps(names: map<Name, Id>, died: map<Id, nat>, p: Id, pr: Proc)
    requires Ready(names, died, p, pr) && (Promoted(pr.pc))
    ensures Kept(names, died, p, OperateHolder(names, p, pr), false)
  {
    hide Chained, InCrashOrder, Frozen, LinkedExactly;
  }

  lemma ListedKeeps(names: map<Name, Id>, died: map<Id, nat>, p: Id, pr: Proc)
    requires Ready(names, died, p, pr) && (pr.pc.ListingAliases? || pr.pc.Sweeping?)
    ensures Kept(names, died, p, OperateHolder(names, p, pr), false)
  {
    hide Chained, InCrashOrder, Frozen, LinkedExactly, StalePaths, StaleIds;
  }

  lemma OwnedKeeps(names: map<Name, Id>, died: map<Id, nat>, p: Id, pr: Proc)
    requires Ready(names, died, p, pr) && (pr.pc.FinalCheck? || pr.pc.Owned?)
    ensures Kept(names, died, p, OperateHolder(names, p, pr), false)
  {
    hide Chained, InCrashOrder, Frozen, LinkedExactly, StalePaths, StaleIds;
  }

  lemma ReleasingKeeps(names: map<Name, Id>, died: map<Id, nat>, p: Id, pr: Proc)
    requires Ready(names, died, p, pr) && (pr.pc.Releasing?)
    ensures Kept(names, died, p, OperateHolder(names, p, pr), false)
  {
  }

  lemma AliasKeeps(names: map<Name, Id>, died: map<Id, nat>, p: Id, pr: Proc, young: set<Id>)
    requires Ready(names, died, p, pr) && pr.pc.DroppingAlias?
    requires pr.pc.entry in names ==>
      names[pr.pc.entry] in died || (pr.pc.entry.Candidate? && pr.pc.entry.owner in young && pr.pc.entry.owner != p)
    ensures var e := OperateHolder(names, p, pr);
      NamesInv(e.names, died) && ProcInv(e.names, died, p, e.pr) && DeadNames(names, e.names, died, p, young)
  {
    hide Chained, InCrashOrder;
  }

  lemma RollbackKeeps(names: map<Name, Id>, died: map<Id, nat>, p: Id, pr: Proc)
    requires Ready(names, died, p, pr) && (pr.pc.DroppingRelease? || OnRollback(pr.pc))
    ensures Kept(names, died, p, OperateRollback(names, p, pr), false)
  {
    hide StalePaths, StaleIds;
    hide Chained, InCrashOrder;
  }

  lemma PickKeeps(names: map<Name, Id>, numbers: map<Id, nat>, died: map<Id, nat>, p: Id, pr: Proc, n: Name)
    requires p !in died && ProcInv(names, died, p, pr)
    requires (pr.pc.Sweeping? || pr.pc.Cleaning?) && n in pr.pc.todo
    ensures ProcInv(names, died, p, Picked(names, numbers, p, pr, n))
  {
  }

  lemma ThrowKeeps(names: map<Name, Id>, died: map<Id, nat>, p: Id, pr: Proc)
    requires p !in died && ProcInv(names, died, p, pr)
    ensures ProcInv(names, died, p, Thrown(pr)) && (pr.pc.Judging? ==> ProcInv(names, died, p, Fail(pr)))
  {
    hide Chained, InCrashOrder, Frozen;
  }

  /** All operations but the creation, the sweep's unlink and the unlink of a "duplicate". */
  lemma OperateKeeps(names: map<Name, Id>, numbers: map<Id, nat>, died: map<Id, nat>, p: Id, pr: Proc)
    requires Ready(names, died, p, pr)
    requires !pr.pc.Creating? && !pr.pc.DroppingAlias? && (pr.pc.DroppingDuplicate? ==> pr.path !in names)
    ensures Kept(names, died, p, Operate(names, numbers, p, pr), pr.pc.Promoting?)
  {
    match pr.pc
    case CheckingCandidate => CandidateKeeps(names, numbers, died, p, pr);
    case Linking => LinkingKeeps(names, numbers, died, p, pr);
    case Opening(_) => OpeningKeeps(names, numbers, died, p, pr);
    case Confirming(_, _) => ConfirmingKeeps(names, numbers, died, p, pr);
    case Judging(_) => JudgingKeeps(names, numbers, died, p, pr);
    case CheckingDuplicate(_) => CheckingDuplicateKeeps(names, numbers, died, p, pr);
    case DroppingDuplicate => ThrowKeeps(names, died, p, pr);
    case CheckingLink => CheckingLinkKeeps(names, died, p, pr);
    case OpeningRoot => RootReadKeeps(names, died, p, pr);
    case ConfirmingRoot(_) => RootReadKeeps(names, died, p, pr);
    case Promoting => PromotionKeeps(names, died, p, pr);
    case DroppingCandidate => DroppingCandidateKeeps(names, died, p, pr);
    case CheckingPromotion => PromotedKeeps(names, died, p, pr);
    case DroppingTail => PromotedKeeps(names, died, p, pr);
    case ListingAliases => ListedKeeps(names, died, p, pr);
    case Sweeping(_) => ListedKeeps(names, died, p, pr);
    case FinalCheck => OwnedKeeps(names, died, p, pr);
    case Owned => OwnedKeeps(names, died, p, pr);
    case Releasing => ReleasingKeeps(names, died, p, pr);
    case _ => RollbackKeeps(names, died, p, pr);
  }

  // ---------------------------------------------------------------------------------------------
  // Every step keeps it: the attempts

  ghost predicate ProcsInv(s: State) {
    forall p | Alive(s, p) :: ProcInv(s.names, s.died, p, s.procs[p])
  }

  lemma CrashKeeps(s: State, p: Id)
    requires Inv(s) && Alive(s, p)
    ensures ProcsInv(Exec(s, p, Die))
  {
    var t := Exec(s, p, Die);
    forall q | Alive(t, q)
      ensures ProcInv(t.names, t.died, q, t.procs[q])
    {
      assert ProcInv(s.names, s.died, q, s.procs[q]);
    }
  }

  lemma SpawnKeeps(s: State, p: Id)
    requires Inv(s) && p !in s.procs
    ensures ProcsInv(Exec(s, p, Spawn))
  {
    var t := Exec(s, p, Spawn);
    assert ProcInv(t.names, t.died, p, t.procs[p]);
    forall q | Alive(t, q) && q != p
      ensures ProcInv(t.names, t.died, q, t.procs[q])
    {
      assert ProcInv(s.names, s.died, q, s.procs[q]);
    }
  }

  lemma ApplyKeeps(s: State, p: Id, e: Effect)
    requires Alive(s, p) && ProcInv(e.names, s.died, p, e.pr)
    requires forall q | Alive(s, q) && q != p :: ProcInv(e.names, s.died, q, s.procs[q])
    ensures ProcsInv(Apply(s, p, e))
  {
    hide ProcInv;
  }

  lemma AttemptsKeep(s: State, p: Id, a: Action)
    requires Inv(s) && Enabled(s, p, a) && Spares(s, p, a)
    ensures ProcsInv(Exec(s, p, a))
  {
    hide Chained, InCrashOrder, LinkedExactly, InUse, CanFail;
    match a
    case Spawn => SpawnKeeps(s, p);
    case Die => CrashKeeps(s, p);
    case Throw =>
      var e := Effect(s.names, Thrown(s.procs[p]));
      ThrowKeeps(s.names, s.died, p, s.procs[p]);
      OthersKeep(s, p, e);
      ApplyKeeps(s, p, e);
    case SayAlive =>
      var e := Effect(s.names, Fail(s.procs[p]));
      ThrowKeeps(s.names, s.died, p, s.procs[p]);
      OthersKeep(s, p, e);
      ApplyKeeps(s, p, e);
    case Create(number) =>
      var e := Effect(s.names[Candidate(p) := p], s.procs[p].(pc := CheckingCandidate));
      CreatingKeeps(s.names, s.died, p, s.procs[p]);
      OthersKeep(s, p, e);
      ApplyKeeps(s, p, e);
    case Pick(n) =>
      var e := Effect(s.names, Picked(s.names, s.numbers, p, s.procs[p], n));
      PickKeeps(s.names, s.numbers, s.died, p, s.procs[p], n);
      OthersKeep(s, p, e);
      ApplyKeeps(s, p, e);
    case Go => GoKeeps(s, p);
  }

  lemma GoKeeps(s: State, p: Id)
    requires Inv(s) && Enabled(s, p, Go) && Spares(s, p, Go)
    ensures ProcsInv(Exec(s, p, Go))
  {
    var pr := s.procs[p];
    if pr.pc.DroppingAlias? {
      SweepKeeps(s, p);
    } else if pr.pc.DroppingDuplicate? && pr.path in s.names {
      DuplicateKeeps(s, p);
    } else {
      var e := Operate(s.names, s.numbers, p, pr);
      OperateKeeps(s.names, s.numbers, s.died, p, pr);
      if pr.pc.Promoting? {
        PromotionIsExclusive(s, p);
        OthersKeepDead(s, p, e, {});
      } else {
        OthersKeep(s, p, e);
      }
      ApplyKeeps(s, p, e);
    }
  }

  lemma SweepKeeps(s: State, p: Id)
    requires Inv(s) && Enabled(s, p, Go) && s.procs[p].pc.DroppingAlias?
    ensures ProcsInv(Exec(s, p, Go))
  {
    var pr := s.procs[p];
    var e := Operate(s.names, s.numbers, p, pr);
    HoldingIsExclusive(s, p);
    var young := YoungEntry(s, p);
    AliasKeeps(s.names, s.died, p, pr, young);
    OthersKeepDead(s, p, e, young);
    ApplyKeeps(s, p, e);
  }

  /** The live attempt whose candidate the sweep is about to take, if it is one. */
  lemma YoungEntry(s: State, p: Id) returns (young: set<Id>)
    requires Inv(s) && Alive(s, p) && s.procs[p].pc.DroppingAlias?
    ensures forall x <- young | Alive(s, x) :: !AtTail(s.procs[x].pc)
    ensures var entry := s.procs[p].pc.entry;
      entry in s.names ==>
        s.names[entry] in s.died || (entry.Candidate? && entry.owner in young && entry.owner != p)
  {
    var entry := s.procs[p].pc.entry;
    assert Removable(s, p, entry);
    assert ProcInv(s.names, s.died, p, s.procs[p]);
    if entry in s.names && s.names[entry] !in s.died {
      var x := entry.owner;
      assert s.names[entry] in s.names.Values;
      assert Alive(s, x) && x != p;
      assert Exposed(s, p, x);
      young := {x};
    } else {
      young := {};
    }
  }

  lemma DuplicateKeeps(s: State, p: Id)
    requires Inv(s) && Enabled(s, p, Go) && s.procs[p].pc.DroppingDuplicate? && s.procs[p].path in s.names
    requires Spares(s, p, Go)
    ensures ProcsInv(Exec(s, p, Go))
  {
    var pr := s.procs[p];
    var e := Effect(s.names - {pr.path}, Restart(pr));
    ProcOf(s, p);
    DropsIt(s.names, s.numbers, s.died, p, pr);
    hide Inv, ProcInv, NamesInv, Operate;
    OthersKeepSpared(s, p, pr.path);
    RestartWithoutPath(s.names, s.died, p, pr);
    ApplyKeeps(s, p, e);
  }

  lemma DropsIt(names: map<Name, Id>, numbers: map<Id, nat>, died: map<Id, nat>, p: Id, pr: Proc)
    requires pr.pc.DroppingDuplicate? && pr.path in names && WalkInv(died, pr)
    ensures Operate(names, numbers, p, pr) == Effect(names - {pr.path}, Restart(pr)) && pr.path.Next?
  {
    hide LinkedExactly;
  }

  lemma RestartWithoutPath(names: map<Name, Id>, died: map<Id, nat>, p: Id, pr: Proc)
    requires p !in died && NamesInv(names, died) && ProcInv(names, died, p, pr) && pr.pc.DroppingDuplicate?
    ensures NamesInv(names - {pr.path}, died) && ProcInv(names - {pr.path}, died, p, Restart(pr))
  {
    RestartKeeps(names, died, p, pr);
    hide Chained, InCrashOrder;
  }

  // ---------------------------------------------------------------------------------------------
  // Every step of every run: names and walks

  ghost predicate Sound(names: map<Name, Id>, died: map<Id, nat>, p: Id, pr: Proc) {
    p !in died && NamesInv(names, died) && Grounded(names, died, p, pr)
  }

  lemma IsSound(s: State, p: Id)
    requires AttemptsInv(s) && Alive(s, p)
    ensures Sound(s.names, s.died, p, s.procs[p])
  {
  }

  /** An operation gives a name to the own file only, except that a release renames whatever is at the root. */
  ghost predicate Gives(names: map<Name, Id>, names': map<Name, Id>, p: Id) {
    forall n <- names' ::
      Names(names, n, names'[n]) || names'[n] == p || (n == Release(p) && names'[n] in names.Values)
  }

  ghost predicate Goes(names: map<Name, Id>, died: map<Id, nat>, p: Id, e: Effect) {
    NamesInv(e.names, died) && Grounded(e.names, died, p, e.pr) && Gives(names, e.names, p)
  }

  lemma StaysSound(names: map<Name, Id>, died: map<Id, nat>, p: Id, pr: Proc, pr': Proc)
    requires Sound(names, died, p, pr) && WalkInv(died, pr') && PlaceInv(pr')
    requires pr'.linked == pr.linked && (CanFail(pr') ==> CanFail(pr))
    ensures Goes(names, died, p, Effect(names, pr'))
  {
    hide WalkInv, PlaceInv, NamesInv, CanFail;
  }

  lemma FailGoes(names: map<Name, Id>, died: map<Id, nat>, p: Id, pr: Proc)
    requires Sound(names, died, p, pr)
    ensures Goes(names, died, p, Effect(names, Thrown(pr)))
    ensures pr.pc.Judging? ==> Goes(names, died, p, Effect(names, Fail(pr)))
  {
    hide Chained, InCrashOrder, NamesInv;
  }

  lemma ReadGoes(names: map<Name, Id>, numbers: map<Id, nat>, died: map<Id, nat>, p: Id, pr: Proc)
    requires Sound(names, died, p, pr)
    requires pr.pc.CheckingCandidate? || (Walking(pr.pc) && !pr.pc.Linking? && !pr.pc.Confirming? &&
      !pr.pc.DroppingDuplicate?)
    requires pr.pc.Judging? ==> pr.pc.seen in died
    ensures Goes(names, died, p, OperateWalk(names, numbers, p, pr))
  {
    RestartWalks(names, died, pr);
    hide Chained, InCrashOrder, NamesInv, LinkedExactly;
  }

  lemma ConfirmGoes(names: map<Name, Id>, numbers: map<Id, nat>, died: map<Id, nat>, p: Id, pr: Proc)
    requires Sound(names, died, p, pr) && pr.pc.Confirming?
    ensures Goes(names, died, p, OperateWalk(names, numbers, p, pr))
  {
    hide NamesInv, Chained, InCrashOrder;
    if !Names(names, pr.path, pr.pc.seen) || (pr.pc.observed.Some? && pr.pc.observed.value != pr.pc.seen) {
      RestartWalks(names, died, pr);
      StaysSound(names, died, p, pr, Restart(pr));
    } else if pr.pc.observed == None {
      JudgeWalks(died, pr);
      StaysSound(names, died, p, pr, pr.(pc := Judging(pr.pc.seen)));
    } else {
      AdvanceWalks(names, numbers, died, pr, pr.pc.seen);
      StaysSound(names, died, p, pr, Advance(numbers, pr, pr.pc.seen));
    }
    hide Goes;
  }

  lemma JudgeWalks(died: map<Id, nat>, pr: Proc)
    requires WalkInv(died, pr) && pr.pc.Confirming?
    ensures WalkInv(died, pr.(pc := Judging(pr.pc.seen)))
  {
    hide Chained, InCrashOrder;
  }

  lemma AdvanceWalks(names: map<Name, Id>, numbers: map<Id, nat>, died: map<Id, nat>, pr: Proc, seen: Id)
    requires NamesInv(names, died) && WalkInv(died, pr) && pr.pc.Confirming?
    requires Names(names, pr.path, seen) && seen in died
    ensures WalkInv(died, Advance(numbers, pr, seen)) && seen !in StaleIds(pr)
  {
    assert pr.path == EndOf(pr.stale);
    CrashOrderGrows(names, died, pr.stale, seen);
    ChainedGrows(pr.stale, seen);
    if NumberOf(numbers, seen) in StaleNumbers(numbers, pr) {
      DuplicateWalks(died, pr, seen);
    } else {
      GrownWalks(died, pr, seen);
    }
    hide NamesInv, WalkInv;
  }

  lemma LinkGoes(names: map<Name, Id>, numbers: map<Id, nat>, died: map<Id, nat>, p: Id, pr: Proc)
    requires Sound(names, died, p, pr) && pr.pc.Linking?
    ensures Goes(names, died, p, OperateWalk(names, numbers, p, pr))
  {
    LinkNames(names, numbers, died, p, pr);
    LinkPlace(names, numbers, died, p, pr);
    LinkTraced(names, numbers, p, pr);
    hide NamesInv, WalkInv, PlaceInv, Traced, Gives, OperateWalk;
  }

  lemma LinkNames(names: map<Name, Id>, numbers: map<Id, nat>, died: map<Id, nat>, p: Id, pr: Proc)
    requires NamesInv(names, died) && WalkInv(died, pr) && pr.pc.Linking? && p !in died
    ensures var names' := OperateWalk(names, numbers, p, pr).names; NamesInv(names', died) && Gives(names, names', p)
  {
    assert pr.path.Next? ==> pr.path.owner in died;
    assert pr.path == Root || pr.path.Next?;
    hide WalkInv, LinkedExactly;
  }

  lemma LinkPlace(names: map<Name, Id>, numbers: map<Id, nat>, died: map<Id, nat>, p: Id, pr: Proc)
    requires WalkInv(died, pr) && PlaceInv(pr) && pr.pc.Linking?
    ensures var pr' := OperateWalk(names, numbers, p, pr).pr; WalkInv(died, pr') && PlaceInv(pr')
  {
    hide Chained, InCrashOrder;
  }

  lemma LinkTraced(names: map<Name, Id>, numbers: map<Id, nat>, p: Id, pr: Proc)
    requires Traced(names, p, pr) && pr.pc.Linking?
    ensures var e := OperateWalk(names, numbers, p, pr); Traced(e.names, p, e.pr)
  {
    hide LinkedExactly;
  }

  lemma DropGoes(names: map<Name, Id>, numbers: map<Id, nat>, died: map<Id, nat>, p: Id, pr: Proc)
    requires Sound(names, died, p, pr) && pr.pc.DroppingDuplicate?
    ensures Goes(names, died, p, OperateWalk(names, numbers, p, pr))
  {
    RestartWalks(names, died, pr);
    hide Chained, InCrashOrder;
  }

  lemma TailGoes(names: map<Name, Id>, died: map<Id, nat>, p: Id, pr: Proc)
    requires Sound(names, died, p, pr) && AtTail(pr.pc)
    ensures Goes(names, died, p, OperateTail(names, p, pr))
  {
    TailNames(names, died, p, pr);
    TailPlace(names, died, p, pr);
    TailTraced(names, p, pr);
    hide NamesInv, WalkInv, PlaceInv, Traced, Gives, OperateTail;
  }

  lemma TailNames(names: map<Name, Id>, died: map<Id, nat>, p: Id, pr: Proc)
    requires NamesInv(names, died) && AtTail(pr.pc)
    ensures var names' := OperateTail(names, p, pr).names; NamesInv(names', died) && Gives(names, names', p)
  {
    hide LinkedExactly, Before;
  }

  lemma TailPlace(names: map<Name, Id>, died: map<Id, nat>, p: Id, pr: Proc)
    requires WalkInv(died, pr) && PlaceInv(pr) && AtTail(pr.pc)
    ensures var pr' := OperateTail(names, p, pr).pr; WalkInv(died, pr') && PlaceInv(pr')
  {
    hide Chained, InCrashOrder, LinkedExactly, Rename, StalePaths, StaleIds;
  }

  lemma TailTraced(names: map<Name, Id>, p: Id, pr: Proc)
    requires Traced(names, p, pr) && AtTail(pr.pc)
    ensures var e := OperateTail(names, p, pr); Traced(e.names, p, e.pr)
  {
    hide LinkedExactly;
  }

  lemma HolderGoes(names: map<Name, Id>, died: map<Id, nat>, p: Id, pr: Proc)
    requires Sound(names, died, p, pr) && (Promoted(pr.pc) || Installed(pr.pc))
    ensures Goes(names, died, p, OperateHolder(names, p, pr))
  {
    HolderNames(names, died, p, pr);
    HolderPlace(names, died, p, pr);
    HolderTraced(names, p, pr);
    hide NamesInv, WalkInv, PlaceInv, Traced, Gives, OperateHolder;
  }

  lemma HolderNames(names: map<Name, Id>, died: map<Id, nat>, p: Id, pr: Proc)
    requires NamesInv(names, died) && (Promoted(pr.pc) || Installed(pr.pc))
    ensures var names' := OperateHolder(names, p, pr).names; NamesInv(names', died) && Gives(names, names', p)
  {
    hide LinkedExactly, Before;
  }

  lemma HolderPlace(names: map<Name, Id>, died: map<Id, nat>, p: Id, pr: Proc)
    requires WalkInv(died, pr) && PlaceInv(pr) && (Promoted(pr.pc) || Installed(pr.pc))
    ensures var pr' := OperateHolder(names, p, pr).pr; WalkInv(died, pr') && PlaceInv(pr')
  {
    hide Chained, InCrashOrder, LinkedExactly, Rename, StalePaths, StaleIds;
  }

  lemma HolderTraced(names: map<Name, Id>, p: Id, pr: Proc)
    requires Traced(names, p, pr) && PlaceInv(pr) && (Promoted(pr.pc) || Installed(pr.pc))
    ensures var e := OperateHolder(names, p, pr); Traced(e.names, p, e.pr)
  {
    hide LinkedExactly;
  }

  lemma RollbackGoes(names: map<Name, Id>, died: map<Id, nat>, p: Id, pr: Proc)
    requires Sound(names, died, p, pr) && (OnRollback(pr.pc) || pr.pc.DroppingRelease?)
    ensures Goes(names, died, p, OperateRollback(names, p, pr))
  {
    hide Chained, InCrashOrder, LinkedExactly;
  }

  lemma OperationGoes(names: map<Name, Id>, numbers: map<Id, nat>, died: map<Id, nat>, p: Id, pr: Proc)
    requires Sound(names, died, p, pr) && !pr.pc.Creating? && (pr.pc.Judging? ==> pr.pc.seen in died)
    ensures Goes(names, died, p, Operate(names, numbers, p, pr))
  {
    hide Sound, Goes, OperateWalk, OperateTail, OperateHolder, OperateRollback;
    if pr.pc.Linking? {
      LinkGoes(names, numbers, died, p, pr);
    } else if pr.pc.Confirming? {
      ConfirmGoes(names, numbers, died, p, pr);
    } else if pr.pc.DroppingDuplicate? {
      DropGoes(names, numbers, died, p, pr);
    } else if pr.pc.CheckingCandidate? || Walking(pr.pc) {
      ReadGoes(names, numbers, died, p, pr);
    } else if AtTail(pr.pc) {
      TailGoes(names, died, p, pr);
    } else if Promoted(pr.pc) || Installed(pr.pc) {
      HolderGoes(names, died, p, pr);
    } else {
      RollbackGoes(names, died, p, pr);
    }
  }

  lemma PickGoes(names: map<Name, Id>, numbers: map<Id, nat>, died: map<Id, nat>, p: Id, pr: Proc, n: Name)
    requires Sound(names, died, p, pr) && (pr.pc.Sweeping? || pr.pc.Cleaning?) && n in pr.pc.todo
    ensures Goes(names, died, p, Effect(names, Picked(names, numbers, p, pr, n)))
  {
    hide Chained, InCrashOrder, NamesInv;
  }

  lemma CreationGoes(names: map<Name, Id>, died: map<Id, nat>, p: Id, pr: Proc)
    requires Sound(names, died, p, pr) && pr.pc.Creating?
    ensures Goes(names, died, p, Effect(names[Candidate(p) := p], pr.(pc := CheckingCandidate)))
  {
    hide Chained, InCrashOrder;
  }

  lemma ApplyGoes(s: State, p: Id, e: Effect)
    requires AttemptsInv(s) && Alive(s, p) && Goes(s.names, s.died, p, e)
    ensures AttemptsInv(Apply(s, p, e))
  {
    hide WalkInv, PlaceInv, NamesInv;
    var t := Apply(s, p, e);
    forall n | n in e.names ensures e.names[n] in s.procs {
      assert Names(s.names, n, e.names[n]) ==> s.names[n] in s.names.Values;
    }
    forall q | Alive(t, q) && q != p ensures Grounded(t.names, t.died, q, t.procs[q]) {
      assert Grounded(s.names, s.died, q, s.procs[q]);
    }
  }

  lemma CrashGoes(s: State, p: Id)
    requires AttemptsInv(s) && Alive(s, p)
    ensures AttemptsInv(Exec(s, p, Die))
  {
    var t := Exec(s, p, Die);
    forall q | Alive(t, q) ensures Grounded(t.names, t.died, q, t.procs[q]) {
      assert Grounded(s.names, s.died, q, s.procs[q]);
    }
  }

  lemma SpawnGoes(s: State, p: Id)
    requires AttemptsInv(s) && p !in s.procs
    ensures AttemptsInv(Exec(s, p, Spawn))
  {
    var t := Exec(s, p, Spawn);
    forall n ensures !Names(s.names, n, p) {
      assert Names(s.names, n, p) ==> p in s.names.Values;
    }
    forall q | Alive(t, q) && q != p ensures Grounded(t.names, t.died, q, t.procs[q]) {
      assert Grounded(s.names, s.died, q, s.procs[q]);
    }
  }

  lemma SameAttempts(s: State, p: Id, number: nat)
    requires Enabled(s, p, Create(number))
    requires AttemptsInv(Apply(s, p, Effect(s.names[Candidate(p) := p], s.procs[p].(pc := CheckingCandidate))))
    ensures AttemptsInv(Exec(s, p, Create(number)))
  {
    hide WalkInv, PlaceInv, NamesInv, InUse;
  }

  lemma AttemptsGo(s: State, p: Id, a: Action)
    requires AttemptsInv(s) && Enabled(s, p, a)
    ensures AttemptsInv(Exec(s, p, a))
  {
    hide InUse, Goes, Grounded, AttemptsInv, Operate, Picked, Thrown;
    match a
    case Spawn => SpawnGoes(s, p);
    case Die => CrashGoes(s, p);
    case Throw =>
      IsSound(s, p);
      FailGoes(s.names, s.died, p, s.procs[p]);
      ApplyGoes(s, p, Effect(s.names, Thrown(s.procs[p])));
    case SayAlive =>
      IsSound(s, p);
      FailGoes(s.names, s.died, p, s.procs[p]);
      ApplyGoes(s, p, Effect(s.names, Fail(s.procs[p])));
    case Create(number) =>
      IsSound(s, p);
      CreationGoes(s.names, s.died, p, s.procs[p]);
      ApplyGoes(s, p, Effect(s.names[Candidate(p) := p], s.procs[p].(pc := CheckingCandidate)));
      SameAttempts(s, p, number);
    case Pick(n) =>
      IsSound(s, p);
      PickGoes(s.names, s.numbers, s.died, p, s.procs[p], n);
      ApplyGoes(s, p, Effect(s.names, Picked(s.names, s.numbers, p, s.procs[p], n)));
    case Go =>
      IsSound(s, p);
      OperationGoes(s.names, s.numbers, s.died, p, s.procs[p]);
      ApplyGoes(s, p, Operate(s.names, s.numbers, p, s.procs[p]));
  }

  // ---------------------------------------------------------------------------------------------
  // Every step of every run: the numbers

  /** An operation gives a first name only to the own open file, and opens only what has a name. */
  ghost predicate Uses(names: map<Name, Id>, p: Id, pr: Proc, e: Effect) {
    && (Open(e.pr.pc) ==> Open(pr.pc))
    && (forall n <- e.names :: e.names[n] in names.Values || (e.names[n] == p && !OnRollback(pr.pc)))
    && (forall n <- e.names | n.Release? :: n in names || (n == Release(p) && pr.pc.Releasing?))
    && (forall i | Pins(e.pr.pc, i) :: i in names.Values)
    && (OnRollback(pr.pc) ==> OnRollback(e.pr.pc)) && !e.pr.pc.Creating?
  }

  lemma WalkUses(names: map<Name, Id>, numbers: map<Id, nat>, p: Id, pr: Proc)
    requires (pr.pc.CheckingCandidate? || Walking(pr.pc)) && (pr.pc.Linking? ==> !pr.path.Release?)
    ensures Uses(names, p, pr, OperateWalk(names, numbers, p, pr))
  {
    hide LinkedExactly;
  }

  lemma TailUses(names: map<Name, Id>, p: Id, pr: Proc)
    requires AtTail(pr.pc) && !pr.path.Release?
    ensures Uses(names, p, pr, OperateTail(names, p, pr))
  {
  }

  lemma HolderUses(names: map<Name, Id>, p: Id, pr: Proc)
    requires Promoted(pr.pc) || Installed(pr.pc)
    ensures Uses(names, p, pr, OperateHolder(names, p, pr))
  {
  }

  lemma RollbackUses(names: map<Name, Id>, p: Id, pr: Proc)
    requires OnRollback(pr.pc) || pr.pc.DroppingRelease?
    ensures Uses(names, p, pr, OperateRollback(names, p, pr))
  {
  }

  lemma OperationUses(names: map<Name, Id>, numbers: map<Id, nat>, died: map<Id, nat>, p: Id, pr: Proc)
    requires !pr.pc.Creating? && WalkInv(died, pr)
    ensures Uses(names, p, pr, Operate(names, numbers, p, pr))
  {
    hide OperateWalk, OperateTail, OperateHolder, OperateRollback, Uses, CanFail;
    if pr.pc.CheckingCandidate? || Walking(pr.pc) {
      WalkUses(names, numbers, p, pr);
    } else if AtTail(pr.pc) {
      TailUses(names, p, pr);
    } else if Promoted(pr.pc) || Installed(pr.pc) {
      HolderUses(names, p, pr);
    } else {
      RollbackUses(names, p, pr);
    }
  }

  lemma LinkedIffValue(names: map<Name, Id>, i: Id)
    ensures Linked(names, i) <==> i in names.Values
  {
  }

  /** Only a creation brings a file into use. */
  ghost predicate UsesNoMore(s: State, t: State) {
    t.numbers == s.numbers && forall i | InUse(t, i) :: InUse(s, i)
  }

  lemma CrashUses(s: State, p: Id)
    requires Alive(s, p)
    ensures UsesNoMore(s, Exec(s, p, Die))
  {
    var t := Exec(s, p, Die);
    forall i | Pinned(t, i) ensures Pinned(s, i) {
    }
  }

  lemma SpawnUses(s: State, p: Id)
    requires p !in s.procs && s.numbers.Keys <= s.procs.Keys
    ensures UsesNoMore(s, Exec(s, p, Spawn))
  {
    var t := Exec(s, p, Spawn);
    forall i | Pinned(t, i) ensures Pinned(s, i) {
    }
  }

  lemma ApplyUses(s: State, p: Id, e: Effect)
    requires Alive(s, p)
    requires p in s.numbers && Open(e.pr.pc) ==> Open(s.procs[p].pc)
    requires forall n <- e.names :: e.names[n] in s.names.Values || (e.names[n] == p && InUse(s, p))
    requires forall i | Pins(e.pr.pc, i) :: i in s.names.Values || Pins(s.procs[p].pc, i)
    ensures UsesNoMore(s, Apply(s, p, e))
  {
    var t := Apply(s, p, e);
    forall i | InUse(t, i) ensures InUse(s, i) {
      LinkedIffValue(s.names, i);
      if Linked(t.names, i) {
        var n :| n in t.names && t.names[n] == i;
      } else if Pinned(t, i) {
        var q :| q in t.procs && Alive(t, q) && Pins(t.procs[q].pc, i);
        assert q != p ==> Pins(s.procs[q].pc, i);
      }
    }
  }

  lemma GoUses(s: State, p: Id)
    requires RunInv(s) && Enabled(s, p, Go)
    ensures UsesNoMore(s, Exec(s, p, Go))
  {
    var pr := s.procs[p];
    assert Grounded(s.names, s.died, p, pr);
    OperationUses(s.names, s.numbers, s.died, p, pr);
    hide Operate;
    assert !OnRollback(pr.pc) ==> InUse(s, p);
    ApplyUses(s, p, Operate(s.names, s.numbers, p, pr));
  }

  lemma StepUses(s: State, p: Id, a: Action)
    requires RunInv(s) && Enabled(s, p, a) && !a.Create?
    ensures UsesNoMore(s, Exec(s, p, a))
  {
    hide Operate, Grounded, NamesInv;
    match a
    case Spawn => SpawnUses(s, p);
    case Die => CrashUses(s, p);
    case Throw => ApplyUses(s, p, Effect(s.names, Thrown(s.procs[p])));
    case SayAlive => ApplyUses(s, p, Effect(s.names, Fail(s.procs[p])));
    case Pick(n) => ApplyUses(s, p, Effect(s.names, Picked(s.names, s.numbers, p, s.procs[p], n)));
    case Go => GoUses(s, p);
  }

  lemma CreationIs(s: State, p: Id, number: nat)
    requires Enabled(s, p, Create(number))
    ensures Exec(s, p, Create(number)) == s.(
      names := s.names[Candidate(p) := p],
      procs := s.procs[p := s.procs[p].(pc := CheckingCandidate)],
      numbers := s.numbers[p := number])
  {
  }

  lemma CreationUses(s: State, p: Id, number: nat, i: Id)
    requires Enabled(s, p, Create(number)) && InUse(Exec(s, p, Create(number)), i) && i != p
    ensures InUse(s, i)
  {
    var t := Exec(s, p, Create(number));
    if Linked(t.names, i) {
      var n :| n in t.names && t.names[n] == i;
      assert n in s.names && s.names[n] == i;
    } else if Pinned(t, i) {
      var q :| q in t.procs && Alive(t, q) && Pins(t.procs[q].pc, i);
      assert Pins(s.procs[q].pc, i);
    }
  }

  lemma CreationIsNumbered(s: State, p: Id, number: nat)
    requires Numbered(s) && Enabled(s, p, Create(number))
    ensures Numbered(Exec(s, p, Create(number)))
  {
  }

  lemma CreationNumbers(s: State, p: Id, number: nat)
    requires NumberInv(s) && Enabled(s, p, Create(number))
    ensures NumberInv(Exec(s, p, Create(number)))
  {
    var t := Exec(s, p, Create(number));
    CreationIsNumbered(s, p, number);
    assert t.numbers == s.numbers[p := number] && Free(s, number);
    hide InUse, Numbered, Exec, Enabled;
    forall i | InUse(t, i) && i != p
      ensures InUse(s, i) && i in s.numbers && NumberOf(t.numbers, i) == NumberOf(s.numbers, i) != Some(number)
    {
      CreationUses(s, p, number, i);
    }
  }

  /** Files keep their numbers, and the dead stay dead. */
  lemma NumbersStay(s: State, p: Id, a: Action)
    requires RunInv(s) && Enabled(s, p, a)
    ensures var t := Exec(s, p, a);
      && (forall i <- s.numbers :: i in t.numbers && t.numbers[i] == s.numbers[i])
      && s.died.Keys <= t.died.Keys
      && (forall q <- s.procs | q != p :: q in t.procs && t.procs[q] == s.procs[q])
  {
    hide Operate, InUse, Grounded, NamesInv, Thrown, Picked;
  }

  lemma WasAlive(s: State, p: Id, a: Action, q: Id)
    requires Enabled(s, p, a) && Alive(Exec(s, p, a), q)
    ensures (a.Die? ==> q != p) && (q != p ==> Alive(s, q))
  {
    hide Operate, Thrown, Picked, InUse;
  }

  lemma StepNumbers(s: State, p: Id, a: Action)
    requires RunInv(s) && Enabled(s, p, a) && !a.Create?
    ensures Numbered(Exec(s, p, a))
  {
    var t := Exec(s, p, a);
    StepUses(s, p, a);
    NumbersStay(s, p, a);
    forall n | n in t.names && n.Release? ensures n.owner in s.numbers {
      NewRelease(s, p, a, n);
    }
    forall q | Alive(t, q)
      ensures t.procs[q].pc.Creating? ==> q !in t.numbers
      ensures !t.procs[q].pc.Creating? && !OnRollback(t.procs[q].pc) ==> q in t.numbers
    {
      AttemptIsNumbered(s, p, a, q);
    }
    hide RunInv, InUse, Exec, Enabled;
  }

  lemma NewRelease(s: State, p: Id, a: Action, n: Name)
    requires RunInv(s) && Enabled(s, p, a) && !a.Create? && n in Exec(s, p, a).names && n.Release?
    ensures n.owner in s.numbers
  {
    if a == Go {
      assert Grounded(s.names, s.died, p, s.procs[p]);
      OperationUses(s.names, s.numbers, s.died, p, s.procs[p]);
    }
    hide Operate, InUse, Grounded, NamesInv;
  }

  lemma AttemptIsNumbered(s: State, p: Id, a: Action, q: Id)
    requires RunInv(s) && Enabled(s, p, a) && !a.Create? && Alive(Exec(s, p, a), q)
    ensures var pr := Exec(s, p, a).procs[q];
      (pr.pc.Creating? ==> q !in s.numbers) && (!pr.pc.Creating? && !OnRollback(pr.pc) ==> q in s.numbers)
  {
    assert Numbered(s);
    NumbersStay(s, p, a);
    if !a.Spawn? && !a.Die? {
      OwnPc(s, p, a);
    }
    WasAlive(s, p, a, q);
    hide RunInv, InUse, Operate, Picked, Thrown;
  }

  /** Rollback is never left, and creation never returned to. */
  lemma OwnPc(s: State, p: Id, a: Action)
    requires RunInv(s) && Enabled(s, p, a) && !a.Create? && !a.Spawn? && !a.Die?
    ensures var pc, pc' := s.procs[p].pc, Exec(s, p, a).procs[p].pc;
      !pc'.Creating? && (!OnRollback(pc') ==> !OnRollback(pc) && !pc.Creating?)
  {
    match a
    case Go =>
      UnrollBack(s, p);
      hide RunInv, InUse, Operate;
    case Pick(n) =>
      PickedOn(s.names, s.numbers, p, s.procs[p], n);
      hide Picked;
    case _ => hide RunInv, InUse;
  }

  lemma PickedOn(names: map<Name, Id>, numbers: map<Id, nat>, p: Id, pr: Proc, n: Name)
    requires pr.pc.Sweeping? || pr.pc.Cleaning?
    ensures var pc := Picked(names, numbers, p, pr, n).pc; !pc.Creating? && (OnRollback(pr.pc) <==> OnRollback(pc))
  {
  }

  lemma UnrollBack(s: State, p: Id)
    requires RunInv(s) && Enabled(s, p, Go)
    ensures var pc, pc' := s.procs[p].pc, Operate(s.names, s.numbers, p, s.procs[p]).pr.pc;
      !pc'.Creating? && (OnRollback(pc) ==> OnRollback(pc'))
  {
    assert Grounded(s.names, s.died, p, s.procs[p]);
    OperationUses(s.names, s.numbers, s.died, p, s.procs[p]);
  }

  lemma NumbersKeep(s: State, p: Id, a: Action)
    requires RunInv(s) && Enabled(s, p, a)
    ensures NumberInv(Exec(s, p, a))
  {
    if a.Create? {
      CreationNumbers(s, p, a.number);
    } else {
      StepUses(s, p, a);
      StepNumbers(s, p, a);
      hide *;
      SameNumbers(s, Exec(s, p, a));
    }
  }

  /** Every step of every attempt, any failure and any crash keep what holds in every run. */
  lemma RunStepKeeps(s: State, p: Id, a: Action)
    requires RunInv(s) && Enabled(s, p, a)
    ensures RunInv(Exec(s, p, a))
  {
    AttemptsGo(s, p, a);
    NumbersKeep(s, p, a);
    hide AttemptsInv, NumberInv, Exec, Enabled;
  }

  lemma SameNumbers(s: State, t: State)
    requires NumberInv(s) && UsesNoMore(s, t) && Numbered(t)
    ensures NumberInv(t)
  {
    hide InUse;
  }

  /** A file that is open has its number for itself: what a path check by number finds there is that file. */
  lemma OpenFilesHaveTheirNumber(s: State, i: Id, n: Name)
    requires RunInv(s) && n in s.names
    requires (Alive(s, i) && i in s.numbers && Open(s.procs[i].pc)) || Pinned(s, i)
    ensures NumberOf(s.numbers, s.names[n]) == NumberOf(s.numbers, i) <==> s.names[n] == i
  {
    assert Linked(s.names, s.names[n]);
    assert InUse(s, s.names[n]) && InUse(s, i);
  }

  // ---------------------------------------------------------------------------------------------
  // Every step keeps it: the holder and those who come while it is there

  lemma YoungOperation(names: map<Name, Id>, numbers: map<Id, nat>, died: map<Id, nat>, q: Id, p: Id, pr: Proc)
    requires Young(names, q, p, pr) && Names(names, Root, q) && q !in died && NamesInv(names, died) &&
      LinksInv(names, p, pr)
    requires pr.pc.Judging? ==> pr.pc.seen in died
    ensures var e := Operate(names, numbers, p, pr); Young(e.names, q, p, e.pr)
  {
    if OnRollback(pr.pc) {
      YoungRollback(names, q, p, pr);
    }
  }

  lemma YoungRollback(names: map<Name, Id>, q: Id, p: Id, pr: Proc)
    requires Young(names, q, p, pr) && OnRollback(pr.pc)
    ensures var e := OperateRollback(names, p, pr); Young(e.names, q, p, e.pr)
  {
    var e := OperateRollback(names, p, pr);
    forall n | Names(e.names, n, p) ensures n == Candidate(p) {
      assert Names(names, n, p);
    }
  }

  lemma YoungFails(names: map<Name, Id>, q: Id, p: Id, pr: Proc)
    requires Young(names, q, p, pr) && LinksInv(names, p, pr)
    ensures Young(names, q, p, Thrown(pr)) && (pr.pc.Judging? ==> Young(names, q, p, Fail(pr)))
  {
  }

  lemma YoungStep(s: State, p: Id, a: Action, q: Id)
    requires Inv(s) && Enabled(s, p, a) && Alive(s, p) && Alive(s, q) && q != p && !a.Create? && !a.Die?
    requires Names(s.names, Root, q) && Young(s.names, q, p, s.procs[p])
    ensures var t := Exec(s, p, a); Young(t.names, q, p, t.procs[p])
  {
    var pr := s.procs[p];
    assert ProcInv(s.names, s.died, p, pr);
    match a
    case Go => YoungOperation(s.names, s.numbers, s.died, q, p, pr);
    case Throw => YoungFails(s.names, q, p, pr);
    case SayAlive => YoungFails(s.names, q, p, pr);
    case Pick(n) =>
  }

  /** No step gives a name to another attempt's file. */
  lemma OthersGainNothing(s: State, p: Id, a: Action, x: Id, n: Name)
    requires Inv(s) && Enabled(s, p, a) && x != p && Names(Exec(s, p, a).names, n, x)
    ensures Names(s.names, n, x)
  {
    hide RunInv;
    if a == Go {
      ProcOf(s, p);
      if !s.procs[p].pc.DroppingAlias? && !(s.procs[p].pc.DroppingDuplicate? && s.procs[p].path in s.names) {
        OperateKeeps(s.names, s.numbers, s.died, p, s.procs[p]);
      }
    }
    hide Inv, ProcInv, NamesInv, InUse;
  }

  /** Who was at the root before an operation, if it is not the one to the root. */
  lemma HolderBefore(names: map<Name, Id>, numbers: map<Id, nat>, p: Id, pr: Proc)
    requires !pr.pc.Creating? && (AtTail(pr.pc) ==> pr.path == EndOf(pr.stale)) &&
      (pr.pc.DroppingCandidate? ==> pr.path == Root)
    requires var pc := Operate(names, numbers, p, pr).pr.pc; Promoted(pc) || Installed(pc)
    ensures Operate(names, numbers, p, pr).pr.stale == pr.stale
    ensures Promoted(pr.pc) || Installed(pr.pc) || pr.pc.Promoting? || pr.stale == []
  {
    hide OperateWalk, OperateTail, OperateHolder, OperateRollback, EndOf;
    if pr.pc.CheckingCandidate? || Walking(pr.pc) {
      NoHolderWalks(names, numbers, p, pr);
    } else if AtTail(pr.pc) {
      EndIsRoot(pr.stale);
      HolderAfterTail(names, p, pr);
    } else if Promoted(pr.pc) || Installed(pr.pc) {
      HolderGoesOn(names, p, pr);
    } else {
      NoHolderRollsBack(names, p, pr);
    }
  }

  lemma NoHolderWalks(names: map<Name, Id>, numbers: map<Id, nat>, p: Id, pr: Proc)
    requires pr.pc.CheckingCandidate? || Walking(pr.pc)
    ensures var pc := OperateWalk(names, numbers, p, pr).pr.pc; !Promoted(pc) && !Installed(pc)
  {
    hide LinkedExactly;
  }

  lemma HolderAfterTail(names: map<Name, Id>, p: Id, pr: Proc)
    requires AtTail(pr.pc)
    ensures var pr' := OperateTail(names, p, pr).pr;
      pr'.stale == pr.stale && (Promoted(pr'.pc) || Installed(pr'.pc) ==> pr.pc.Promoting? || pr.pc.DroppingCandidate?)
  {
    hide LinkedExactly, Rename;
  }

  lemma HolderGoesOn(names: map<Name, Id>, p: Id, pr: Proc)
    requires Promoted(pr.pc) || Installed(pr.pc)
    ensures OperateHolder(names, p, pr).pr.stale == pr.stale
  {
    hide LinkedExactly, Rename;
  }

  lemma NoHolderRollsBack(names: map<Name, Id>, p: Id, pr: Proc)
    requires OnRollback(pr.pc) || pr.pc.DroppingRelease?
    ensures var pc := OperateRollback(names, p, pr).pr.pc; !Promoted(pc) && !Installed(pc)
  {
  }

  lemma EndIsRoot(stale: seq<Stale>)
    ensures EndOf(stale) == Root <==> stale == []
  {
  }

  lemma EndOfTail(names: map<Name, Id>, died: map<Id, nat>, p: Id, pr: Proc)
    requires ProcInv(names, died, p, pr)
    ensures (AtTail(pr.pc) ==> pr.path == EndOf(pr.stale)) && (pr.pc.DroppingCandidate? ==> pr.path == Root)
  {
  }

  lemma HolderBeforeStep(s: State, p: Id, a: Action)
    requires Inv(s) && Enabled(s, p, a) && Alive(s, p) && !a.Die?
    requires var pc := Exec(s, p, a).procs[p].pc; Promoted(pc) || Installed(pc)
    ensures var pr, pr' := s.procs[p], Exec(s, p, a).procs[p];
      && pr'.stale == pr.stale && !a.Create? && !a.SayAlive?
      && (Promoted(pr.pc) || Installed(pr.pc) || (pr.pc.Promoting? && a == Go) || pr.stale == [])
  {
    ProcOf(s, p);
    EndOfTail(s.names, s.died, p, s.procs[p]);
    HolderThrows(s.procs[p]);
    hide Inv, ProcInv, NamesInv, Operate, Thrown, Promoted, Installed, InUse;
    if a == Go {
      HolderBefore(s.names, s.numbers, p, s.procs[p]);
    } else if a.Pick? {
      HolderPicks(s.names, s.numbers, p, s.procs[p], a.n);
    } else if a.Create? || a.SayAlive? || a.Spawn? {
      NoHolders(s.procs[p]);
    }
  }

  lemma HolderThrows(pr: Proc)
    ensures Promoted(Thrown(pr).pc) || Installed(Thrown(pr).pc) ==>
      Thrown(pr).stale == pr.stale && (Promoted(pr.pc) || Installed(pr.pc))
  {
  }

  lemma HolderPicks(names: map<Name, Id>, numbers: map<Id, nat>, p: Id, pr: Proc, n: Name)
    requires pr.pc.Sweeping? || pr.pc.Cleaning?
    ensures var next := Picked(names, numbers, p, pr, n);
      next.stale == pr.stale && (Promoted(next.pc) || Installed(next.pc) ==> Promoted(pr.pc) || Installed(pr.pc))
  {
  }

  lemma NoHolders(pr: Proc)
    ensures var pc := Fail(pr).pc; !Promoted(pc) && !Installed(pc)
    ensures !Promoted(CheckingCandidate) && !Installed(CheckingCandidate)
    ensures !Promoted(Creating) && !Installed(Creating)
  {
  }

  lemma ExposedBefore(s: State, p: Id, a: Action, q: Id, x: Id)
    requires Inv(s) && Enabled(s, p, a) && Exposed(Exec(s, p, a), q, x)
    requires !(q == p && a == Go && s.procs[p].pc.Promoting?) && !(a.Create? && x == p)
    ensures Exposed(s, q, x)
  {
    var t := Exec(s, p, a);
    if q == p {
      HolderBeforeStep(s, p, a);
    } else {
      assert t.procs[q] == s.procs[q];
      assert ProcInv(s.names, s.died, q, s.procs[q]);
      SameStaleNumbers(s, p, a, q);
    }
  }

  lemma SameStaleNumbers(s: State, p: Id, a: Action, q: Id)
    requires Inv(s) && Enabled(s, p, a) && Alive(s, q) && q != p
    ensures StaleNumbers(Exec(s, p, a).numbers, s.procs[q]) == StaleNumbers(s.numbers, s.procs[q])
  {
    var pr, numbers := s.procs[q], Exec(s, p, a).numbers;
    assert ProcInv(s.names, s.died, q, pr);
    forall j | 0 <= j < |pr.stale|
      ensures NumberOf(numbers, pr.stale[j].id) == NumberOf(s.numbers, pr.stale[j].id)
    {
      assert pr.stale[j].id in s.died;
    }
  }

  /** Up to the rename all claims of the walk are linked, so nobody in use has one of their numbers. */
  lemma PromotionExposes(s: State, p: Id, x: Id)
    requires Inv(s) && Alive(s, p) && s.procs[p].pc.Promoting? && Alive(s, x) && p != x
    requires x in s.numbers && NumberOf(s.numbers, x) in StaleNumbers(s.numbers, s.procs[p])
    ensures !InUse(s, x) && OnRollback(s.procs[x].pc) && forall n :: !Names(s.names, n, x)
  {
    var stale := s.procs[p].stale;
    assert ProcInv(s.names, s.died, p, s.procs[p]);
    var j :| 0 <= j < |stale| && NumberOf(s.numbers, stale[j].id) == NumberOf(s.numbers, x);
    assert Names(s.names, stale[j].path, stale[j].id);
    assert Linked(s.names, stale[j].id) && stale[j].id in s.died;
    assert InUse(s, stale[j].id);
    forall n ensures !Names(s.names, n, x) {
      assert Names(s.names, n, x) ==> Linked(s.names, x);
    }
  }

  lemma YoungAtPromotion(s: State, p: Id, x: Id)
    requires Inv(s) && Enabled(s, p, Go) && s.procs[p].pc.Promoting? && Exposed(Exec(s, p, Go), p, x)
    ensures var t := Exec(s, p, Go); Young(t.names, p, x, t.procs[x])
  {
    var t := Exec(s, p, Go);
    HolderBeforeStep(s, p, Go);
    NumbersStay(s, p, Go);
    SameNumbersOfStale(s.numbers, s.procs[p], t.procs[p]);
    WasAlive(s, p, Go, x);
    assert t.numbers == s.numbers;
    hide Inv, Operate, StaleNumbers, InUse;
    PromotionExposes(s, p, x);
    forall n ensures !Names(t.names, n, x) {
      if Names(t.names, n, x) {
        OthersGainNothing(s, p, Go, x, n);
      }
    }
  }

  lemma YoungKeep(s: State, p: Id, a: Action, q: Id, x: Id)
    requires Inv(s) && Enabled(s, p, a) && Exposed(Exec(s, p, a), q, x)
    ensures var t := Exec(s, p, a); Young(t.names, q, x, t.procs[x])
  {
    var t := Exec(s, p, a);
    if q == p && a == Go && s.procs[p].pc.Promoting? {
      YoungAtPromotion(s, p, x);
    } else if a.Create? && x == p {
      CreationIs(s, p, a.number);
    } else {
      ExposedBefore(s, p, a, q, x);
      assert Young(s.names, q, x, s.procs[x]);
      ProcOf(s, q);
      if x == p {
        assert !a.Die?;
        YoungStep(s, p, a, q);
      } else {
        NumbersStay(s, p, a);
        FewerNames(s, p, a, x, q);
      }
    }
    hide Inv, Operate, StaleNumbers, InUse, NamesInv;
  }

  lemma FewerNames(s: State, p: Id, a: Action, x: Id, q: Id)
    requires Inv(s) && Enabled(s, p, a) && Alive(s, x) && x != p && Young(s.names, q, x, s.procs[x])
    ensures Young(Exec(s, p, a).names, q, x, s.procs[x])
  {
    forall n | Names(Exec(s, p, a).names, n, x) ensures Names(s.names, n, x) {
      OthersGainNothing(s, p, a, x, n);
    }
  }

  /** What the sweep chooses is a name of a dead owner, or a young attempt's candidate. */
  lemma PickedIsRemovable(s: State, p: Id, n: Name)
    requires Inv(s) && Enabled(s, p, Pick(n)) && Exec(s, p, Pick(n)).procs[p].pc.DroppingAlias?
    ensures n in s.names && Removable(s, p, n)
    ensures s.names[n] in s.died || (n == Candidate(s.names[n]) && Exposed(s, p, s.names[n]))
  {
    var pr, i := s.procs[p], s.names[n];
    assert ProcInv(s.names, s.died, p, pr);
    if i !in s.died {
      assert i in s.names.Values && Alive(s, i);
      assert ProcInv(s.names, s.died, i, s.procs[i]);
      assert Linked(s.names, i) && InUse(s, i);
      assert i != p;
      assert Exposed(s, p, i);
      YoungNames(s, p, i, n);
    }
  }

  lemma YoungNames(s: State, p: Id, x: Id, n: Name)
    requires Inv(s) && Exposed(s, p, x) && Names(s.names, n, x)
    ensures n == Candidate(x)
  {
    assert ProcInv(s.names, s.died, x, s.procs[x]);
    assert Young(s.names, p, x, s.procs[x]);
  }

  /** Only the holder, and the unlink of a "duplicate", take a name from a dead owner. */
  lemma DeadNamesStay(s: State, p: Id, a: Action, n: Name)
    requires Inv(s) && Enabled(s, p, a) && n in s.names && s.names[n] in s.died
    requires a == Go ==> !s.procs[p].pc.Promoting? && !s.procs[p].pc.DroppingAlias?
    requires a == Go && s.procs[p].pc.DroppingDuplicate? ==> s.procs[p].path != n
    ensures Names(Exec(s, p, a).names, n, s.names[n])
  {
    hide InCrashOrder;
    if a == Go && !s.procs[p].pc.DroppingDuplicate? {
      OperateKeeps(s.names, s.numbers, s.died, p, s.procs[p]);
    }
  }

  lemma OwnAliasKeeps(s: State, p: Id, a: Action)
    requires Inv(s) && Enabled(s, p, a) && !a.Die? && Exec(s, p, a).procs[p].pc.DroppingAlias?
    ensures var t := Exec(s, p, a); Removable(t, p, t.procs[p].pc.entry)
  {
    SweepsAfterPick(s, p, a);
    PickedIsRemovable(s, p, a.n);
    hide Inv, Exec, Enabled;
    SameNumbersOfStale(s.numbers, s.procs[p], Exec(s, p, a).procs[p]);
  }

  lemma SameNumbersOfStale(numbers: map<Id, nat>, pr: Proc, pr': Proc)
    requires pr.stale == pr'.stale
    ensures StaleNumbers(numbers, pr) == StaleNumbers(numbers, pr')
  {
  }

  lemma OtherAliasKeeps(s: State, p: Id, a: Action, q: Id)
    requires Inv(s) && Enabled(s, p, a) && Spares(s, p, a) && Alive(s, q) && q != p && s.procs[q].pc.DroppingAlias?
    ensures Removable(Exec(s, p, a), q, s.procs[q].pc.entry)
  {
    var t, entry := Exec(s, p, a), s.procs[q].pc.entry;
    assert Removable(s, q, entry);
    SameStaleNumbers(s, p, a, q);
    NumbersStay(s, p, a);
    if entry in s.names && s.names[entry] in s.died {
      HoldingIsExclusive(s, q);
      if a == Go && s.procs[p].pc.DroppingDuplicate? {
        assert Needs(s, q, entry);
      }
      DeadNamesStay(s, p, a, entry);
    }
    hide Inv, StaleNumbers, Operate, ProcInv;
  }

  lemma AliasKeep(s: State, p: Id, a: Action, q: Id)
    requires Inv(s) && Enabled(s, p, a) && Spares(s, p, a)
    requires var t := Exec(s, p, a); Alive(t, q) && t.procs[q].pc.DroppingAlias?
    ensures var t := Exec(s, p, a); Removable(t, q, t.procs[q].pc.entry)
  {
    NumbersStay(s, p, a);
    WasAlive(s, p, a, q);
    hide Inv, Operate, Removable, Spares;
    if q == p {
      OwnAliasKeeps(s, p, a);
    } else {
      OtherAliasKeeps(s, p, a, q);
    }
  }

  lemma SweepsAfterPick(s: State, p: Id, a: Action)
    requires Enabled(s, p, a) && !a.Die? && Exec(s, p, a).procs[p].pc.DroppingAlias?
    ensures a.Pick? && Exec(s, p, a).procs[p].pc.entry == a.n
    ensures Exec(s, p, a).names == s.names && Exec(s, p, a).died == s.died && Exec(s, p, a).numbers == s.numbers
    ensures Exec(s, p, a).procs[p].stale == s.procs[p].stale
  {
    if a == Go {
      NoSweepAfter(s.names, s.numbers, p, s.procs[p]);
    }
    hide InUse, Operate;
  }

  lemma NoSweepAfter(names: map<Name, Id>, numbers: map<Id, nat>, p: Id, pr: Proc)
    requires !pr.pc.Creating?
    ensures !Operate(names, numbers, p, pr).pr.pc.DroppingAlias?
  {
    hide LinkedExactly, Rename;
  }

  lemma YoungOnes(s: State, p: Id, a: Action)
    requires Inv(s) && Enabled(s, p, a)
    ensures YoungInv(Exec(s, p, a))
  {
    var t := Exec(s, p, a);
    forall q, x | Exposed(t, q, x) ensures Young(t.names, q, x, t.procs[x]) {
      YoungKeep(s, p, a, q, x);
    }
    hide Exec, Enabled, Inv, Young, Exposed;
  }

  lemma Aliases(s: State, p: Id, a: Action)
    requires Inv(s) && Enabled(s, p, a) && Spares(s, p, a)
    ensures AliasInv(Exec(s, p, a))
  {
    var t := Exec(s, p, a);
    forall q | Alive(t, q) && t.procs[q].pc.DroppingAlias? ensures Removable(t, q, t.procs[q].pc.entry) {
      AliasKeep(s, p, a, q);
    }
    hide Exec, Enabled, Inv, Removable;
  }

  /** Every step of every attempt keeps the invariant, if the unlink of a "duplicate" spares what others rely on. */
  lemma StepKeeps(s: State, p: Id, a: Action)
    requires Inv(s) && Enabled(s, p, a) && Spares(s, p, a)
    ensures Inv(Exec(s, p, a))
  {
    RunStepKeeps(s, p, a);
    AttemptsKeep(s, p, a);
    YoungOnes(s, p, a);
    Aliases(s, p, a);
    hide Exec, Enabled, ProcInv, RunInv, YoungInv, AliasInv;
  }

  // ---------------------------------------------------------------------------------------------
  // The liveness verdict

  /** The owner record in a claim file; `identity` is absent when the platform offers none. */
  datatype Owner = Owner(pid: int, startedAt: int, identity: Option<string>)

  /** A process that runs now: what it wrote as owner, and the identity the platform reports for it. */
  datatype Process = Process(startedAt: int, reported: Option<string>)

  /** The process that wrote the record still runs: the platform, when it answers, gives the same
      identity again. */
  predicate StillRuns(owner: Owner, running: map<int, Process>) {
    && owner.pid in running && running[owner.pid].startedAt == owner.startedAt
    && (owner.identity != None && running[owner.pid].reported != None ==> running[owner.pid].reported == owner.identity)
  }

  /** The verdict of a contender `self` on `owner`; `running` is the process table by pid.  A running
      owner is never judged dead, and with identities that tell processes apart the verdict is exact. */
  predicate OwnerIsActive(owner: Owner, self: Owner, running: map<int, Process>): (active: bool)
    requires StillRuns(self, running)
    ensures StillRuns(owner, running) ==> active
    ensures owner.pid !in running ==> !active
    // an earlier process with the pid of the contender itself is told by its start
    ensures owner.pid == self.pid ==> (active <==> owner.startedAt == running[self.pid].startedAt)
    ensures
      && owner.identity != None
      && (owner.pid in running ==>
            && running[owner.pid].reported != None
            && (running[owner.pid].reported == owner.identity <==> running[owner.pid].startedAt == owner.startedAt))
      ==> (active <==> StillRuns(owner, running))
  {
    if owner.pid !in running then false
    else if owner.pid == self.pid then owner.startedAt == self.startedAt
    else if owner.identity == None then true
    else running[owner.pid].reported == None || running[owner.pid].reported == owner.identity
  }
}

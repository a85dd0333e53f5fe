/** The artifact store of src/openclaw/artifact-generation.ts: generations are staged, installed,
    validated and then made current by switching one pointer file; older ones are pruned.  Every
    operation may fail, and the process may crash at every operation. */
module ArtifactStore {
  import opened Common

  type Id = nat

  /** The entries of the store directory that its names recognise.  A tombstone is a directory
      renamed for removal. */
  datatype Name = Generation(id: Id) | Staging(id: Id) | Tombstone(uuid: nat)

  datatype Artifact = Manifest | CapabilityMatrix | Readiness | Recorder

  /** An artifact file names the generation it was written for; `sound` says that its fields pass validation. */
  datatype File = File(generation: Id, sound: bool)

  type Dir = map<Artifact, File>

  datatype Pointer = Pointer(generation: Id, previous: Option<Id>, recorder: bool)

  datatype PointerFile = Missing | Malformed | Present(pointer: Pointer)

  /** `parseArtifactPointer` refuses a pointer that names one generation twice. */
  predicate Parses(p: Pointer) {
    p.previous != Some(p.generation)
  }

  predicate Readable(file: PointerFile) {
    file == Missing || (file.Present? && Parses(file.pointer))
  }

  /** `assertArtifactGenerationExists`. */
  predicate Complete(dir: Dir, p: Pointer) {
    && WellFormed(dir, p.generation)
    && (p.recorder <==> Recorder in dir)
  }

  predicate WellFormed(dir: Dir, id: Id) {
    forall a <- {Manifest, CapabilityMatrix, Readiness} :: a in dir && dir[a] == File(id, true)
  }

  /** The generations a pointer file names. */
  function Referenced(file: PointerFile): set<Id> {
    if file.Present? then Retained(Some(file.pointer)) else {}
  }

  function Retained(p: Option<Pointer>): set<Id> {
    if p == None then {}
    else {p.value.generation} + if p.value.previous.Some? then {p.value.previous.value} else {}
  }

  /** Their directories, and those of them that are in the store. */
  function Named(file: PointerFile): set<Name> {
    set g | g in Referenced(file) :: Generation(g)
  }

  function Kept(file: PointerFile, dirs: map<Name, Dir>): set<Name> {
    set g | g in Referenced(file) && Generation(g) in dirs :: Generation(g)
  }

  function Current(file: PointerFile): Option<Id> {
    if file.Present? then Some(file.pointer.generation) else None
  }

  /** A present pointer names a complete installed generation, and the one before it is in the store too. */
  predicate Healthy(dirs: map<Name, Dir>, file: PointerFile) {
    file.Present? ==>
      && Parses(file.pointer)
      && Generation(file.pointer.generation) in dirs
      && Complete(dirs[Generation(file.pointer.generation)], file.pointer)
      && forall g <- Referenced(file) :: Generation(g) in dirs && WellFormed(dirs[Generation(g)], g)
  }

  /** The directories of these generations are what they were. */
  predicate Keeps(before: map<Name, Dir>, after: map<Name, Dir>, ids: set<Id>) {
    forall g <- ids ::
      Generation(g) in before ==> Generation(g) in after && after[Generation(g)] == before[Generation(g)]
  }

  /** Nothing but tombstones has come, and nothing but `name` and tombstones has gone or changed. */
  predicate OnlyWithout(before: map<Name, Dir>, after: map<Name, Dir>, name: Name) {
    && (forall n <- before :: n != name && !n.Tombstone? ==> n in after && after[n] == before[n])
    && (forall n <- after :: !n.Tombstone? ==> n in before && after[n] == before[n])
  }

  const CURRENT_GENERATION_READ_ATTEMPTS := 8

  /** One round: was the generation of the last read pointer complete, and what does the file hold after that? */
  datatype Round = Round(complete: bool, now: Option<Pointer>)

  datatype CurrentRead = Validated(pointer: Pointer) | Incomplete | Restless

  /** What was read before round `i`. */
  function ReadBefore(initial: Pointer, rounds: seq<Round>, i: nat): Option<Pointer>
    requires i <= |rounds|
  {
    if i == 0 then Some(initial) else rounds[i - 1].now
  }

  /** `readValidCurrentArtifactGeneration`, while others may switch the pointer file: the pointer that is
      returned was read both before and after its generation was found complete. */
  method ReadValidCurrent(initial: Pointer, rounds: seq<Round>) returns (r: CurrentRead)
    requires |rounds| == CURRENT_GENERATION_READ_ATTEMPTS
    ensures r.Validated? ==> exists i | 0 <= i < |rounds| ::
      ReadBefore(initial, rounds, i) == Some(r.pointer) == rounds[i].now && rounds[i].complete
    ensures r.Restless? ==> |rounds| == 8
    ensures r.Restless? <==> forall i | 0 <= i < |rounds| ::
      rounds[i].now.Some? && rounds[i].now != ReadBefore(initial, rounds, i)
    ensures r.Incomplete? ==> exists i | 0 <= i < |rounds| ::
      rounds[i].now == None || (rounds[i].now == ReadBefore(initial, rounds, i) && !rounds[i].complete)
  {
    var pointer := initial;
    for attempt := 0 to CURRENT_GENERATION_READ_ATTEMPTS
      invariant ReadBefore(initial, rounds, attempt) == Some(pointer)
      invariant forall i | 0 <= i < attempt :: rounds[i].now.Some? && rounds[i].now != ReadBefore(initial, rounds, i)
    {
      var round := rounds[attempt];
      if round.now == None || round.now == Some(pointer) {
        return if !round.complete || round.now == None then Incomplete else Validated(pointer);
      }
      pointer := round.now.value;
    }
    r := Restless;
  }

  predicate Fresh(dirs: map<Name, Dir>, uuids: nat) {
    forall n <- dirs :: n.Tombstone? ==> n.uuid < uuids
  }

  /** What an operation does: its work, an exception, or the crash of the process before it. */
  datatype Fate = Works | Throws | Crashes

  datatype Published = Published(warnings: bool) | Error | Crash

  function Failure(fate: Fate): Published {
    if fate == Crashes then Crash else Error
  }

  class Store {
    var dirs: map<Name, Dir>
    var pointerFile: PointerFile
    var uuids: nat
    ghost var troubled: bool  // some operation has failed

    /** Names of tombstones are new. */
    predicate Valid()
      reads this
    {
      Fresh(dirs, uuids)
    }

    method Try() returns (fate: Fate)
      modifies `troubled
      ensures troubled == (old(troubled) || !fate.Works?)
    {
      fate :| true;
      troubled := troubled || !fate.Works?;
    }

    /** `removeSecuredPrivateDirectory`: rename to a tombstone, delete what is in it, then the directory. */
    method RemoveDirectory(name: Name) returns (fate: Fate)
      requires Valid() && name in dirs
      modifies `dirs, `uuids, `troubled
      ensures Valid() && OnlyWithout(old(dirs), dirs, name)
      ensures forall n <- old(dirs) :: n != name ==> n in dirs
      ensures fate.Works? ==> dirs.Keys == old(dirs.Keys) - {name}
      ensures troubled == (old(troubled) || !fate.Works?)
    {
      fate := Try();
      if fate != Works {
        return;
      }
      var tombstone := Tombstone(uuids);
      uuids := uuids + 1;
      dirs := (dirs - {name})[tombstone := dirs[name]];
      fate := DeleteFiles(tombstone);
      if fate == Works {
        dirs := dirs - {tombstone};
      }
    }

    method DeleteFiles(tombstone: Name) returns (fate: Fate)
      requires Valid() && tombstone in dirs
      modifies `dirs, `troubled
      ensures Valid() && dirs.Keys == old(dirs.Keys)
      ensures forall n <- dirs :: n != tombstone ==> dirs[n] == old(dirs)[n]
      ensures troubled == (old(troubled) || !fate.Works?)
    {
      while dirs[tombstone] != map[]
        invariant Valid() && dirs.Keys == old(dirs.Keys) && troubled == old(troubled)
        invariant forall n <- dirs :: n != tombstone ==> dirs[n] == old(dirs)[n]
        decreases dirs[tombstone].Keys
      {
        fate := Try();
        if fate != Works {
          return;
        }
        var file :| file in dirs[tombstone];
        dirs := dirs[tombstone := dirs[tombstone] - {file}];
      }
      fate := Try();
    }

    /** `pruneArtifactStore`: everything but the retained generations. */
    method Prune(retained: set<Id>) returns (fate: Fate)
      requires Valid()
      modifies `dirs, `uuids, `troubled
      ensures Valid() && Keeps(old(dirs), dirs, retained)
      ensures fate.Works? ==> dirs.Keys == set n | n in old(dirs) && n.Generation? && n.id in retained
      ensures troubled == (old(troubled) || !fate.Works?)
    {
      fate := Try();
      if fate != Works {
        return;
      }
      var entries := dirs.Keys;
      ghost var kept := set n | n in dirs && n.Generation? && n.id in retained;
      while entries != {}
        invariant Valid() && entries <= dirs.Keys && dirs.Keys == entries + kept
        invariant troubled == old(troubled) && fate.Works?
        invariant forall n <- kept :: n in old(dirs) && dirs[n] == old(dirs)[n]
        decreases entries
      {
        var entry :| entry in entries;
        entries := entries - {entry};
        if entry.Generation? && entry.id in retained {
          continue;
        }
        fate := Try();
        if fate != Works {
          return;
        }
        fate := RemoveDirectory(entry);
        if fate != Works {
          return;
        }
      }
    }

    /** `readOpenClawCrablineArtifactPointer`: an exception for a pointer that does not parse. */
    method ReadPointer() returns (fate: Fate, p: Option<Pointer>)
      modifies `troubled
      ensures old(troubled) || fate == Crashes ==> troubled
      ensures fate.Works? ==> pointerFile != Malformed && Retained(p) == Referenced(pointerFile)
      ensures fate.Works? ==> p == if pointerFile.Present? then Some(pointerFile.pointer) else None
      ensures pointerFile.Present? && fate.Works? ==> Parses(pointerFile.pointer)
      ensures pointerFile.Present? && fate.Works? ==>
        pointerFile.pointer.previous != Some(pointerFile.pointer.generation)
      ensures Readable(pointerFile) ==> troubled == (old(troubled) || !fate.Works?)
    {
      fate := Try();
      p := None;
      match pointerFile
      case Missing =>
      case Malformed =>
        if fate == Works {
          fate := Throws;
        }
      case Present(pointer) =>
        if Parses(pointer) {
          p := Some(pointer);
        } else if fate == Works {
          fate := Throws;
        }
    }

    /** `assertArtifactGenerationExists`. */
    method Validate(p: Pointer) returns (fate: Fate)
      modifies `troubled
      ensures fate.Works? ==> Generation(p.generation) in dirs && Complete(dirs[Generation(p.generation)], p)
      ensures fate == Crashes ==> troubled
      ensures Generation(p.generation) in dirs && Complete(dirs[Generation(p.generation)], p) ==>
        troubled == (old(troubled) || !fate.Works?)
    {
      fate := Try();
      if fate == Works && !(Generation(p.generation) in dirs && Complete(dirs[Generation(p.generation)], p)) {
        fate := Throws;
      }
    }

    /** Write the artifacts into the staging directory, one file at a time. */
    method Stage(id: Id, recorder: bool, sound: bool) returns (fate: Fate)
      requires Valid() && Staging(id) in dirs && dirs[Staging(id)] == map[]
      modifies `dirs, `troubled
      ensures Valid() && dirs.Keys == old(dirs.Keys)
      ensures forall n <- dirs :: n != Staging(id) ==> dirs[n] == old(dirs)[n]
      ensures forall a <- dirs[Staging(id)] :: dirs[Staging(id)][a] == File(id, sound)
      ensures fate.Works? ==>
        dirs[Staging(id)].Keys == {Manifest, CapabilityMatrix, Readiness} + (if recorder then {Recorder} else {})
      ensures troubled == (old(troubled) || !fate.Works?)
    {
      var artifacts := [Manifest, CapabilityMatrix, Readiness] + if recorder then [Recorder] else [];
      fate := Works;
      for i := 0 to |artifacts|
        invariant Valid() && dirs.Keys == old(dirs.Keys)
        invariant fate.Works? && troubled == old(troubled)
        invariant forall n <- dirs :: n != Staging(id) ==> dirs[n] == old(dirs)[n]
        invariant forall a :: a in dirs[Staging(id)] <==> a in artifacts[..i]
        invariant forall a <- dirs[Staging(id)] :: dirs[Staging(id)][a] == File(id, sound)
      {
        fate := Try();
        if fate != Works {
          return;
        }
        dirs := dirs[Staging(id) := dirs[Staging(id)][artifacts[i] := File(id, sound)]];
        assert artifacts[..i + 1] == artifacts[..i] + [artifacts[i]];
      }
      assert artifacts[..|artifacts|] == artifacts;
    }

    /** From an empty staging directory to an installed generation: the rename fails on a directory
        that is not empty. */
    method Install(p: Pointer, named: bool, sound: bool) returns (fate: Fate, installed: bool)
      requires Valid() && Staging(p.generation) in dirs && dirs[Staging(p.generation)] == map[]
      modifies `dirs, `troubled
      ensures Valid() && (fate.Works? ==> installed) && (fate == Crashes ==> troubled)
      ensures forall n <- old(dirs) :: n != Staging(p.generation) && n != Generation(p.generation) ==>
        n in dirs && dirs[n] == old(dirs)[n]
      ensures !installed ==> dirs.Keys == old(dirs.Keys) && Keeps(old(dirs), dirs, {p.generation})
      ensures installed ==>
        && named && Occupied(old(dirs), p.generation) == false
        && dirs.Keys == old(dirs.Keys) - {Staging(p.generation)} + {Generation(p.generation)}
        && (Complete(dirs[Generation(p.generation)], p) <==> sound)
      ensures named && !Occupied(old(dirs), p.generation) ==> troubled == (old(troubled) || !fate.Works?)
    {
      if !named {
        return Throws, false;
      }
      fate := Stage(p.generation, p.recorder, sound);
      if fate != Works {
        return fate, false;
      }
      fate := Try();
      if fate != Works {
        return fate, false;
      }
      if Occupied(dirs, p.generation) {
        return Throws, false;
      }
      dirs := (dirs - {Staging(p.generation)})[Generation(p.generation) := dirs[Staging(p.generation)]];
      installed := true;
      fate := Try();
    }

    /** Validation of the installed generation and the switch of the pointer file.  The switch may be
        followed by an exception: it has then happened although the caller learns of a failure. */
    method Switch(p: Pointer) returns (fate: Fate)
      requires Valid()
      modifies `pointerFile, `troubled
      ensures pointerFile == old(pointerFile) || (pointerFile == Present(p) && IsComplete(dirs, p))
      ensures fate.Works? ==> pointerFile == Present(p) && IsComplete(dirs, p)
      ensures fate == Crashes ==> troubled
      ensures IsComplete(dirs, p) ==> troubled == (old(troubled) || !fate.Works?)
    {
      fate := Validate(p);
      if fate != Works {
        return;
      }
      fate := Try();
      if fate != Works {
        return;
      }
      pointerFile := Present(p);
      fate := Try();
    }

    /** Both: the pointer file is switched only to a generation that is installed and complete. */
    method Attempt(p: Pointer, named: bool, sound: bool) returns (fate: Fate, installed: bool)
      requires Valid() && Staging(p.generation) in dirs && dirs[Staging(p.generation)] == map[]
      modifies `dirs, `pointerFile, `troubled
      ensures Valid() && (fate == Crashes ==> troubled)
      ensures forall n <- old(dirs) :: n != Staging(p.generation) && n != Generation(p.generation) ==>
        n in dirs && dirs[n] == old(dirs)[n]
      ensures !installed ==>
        dirs.Keys == old(dirs.Keys) && Keeps(old(dirs), dirs, {p.generation}) && pointerFile == old(pointerFile)
      ensures installed ==>
        !Occupied(old(dirs), p.generation) &&
        dirs.Keys == old(dirs.Keys) - {Staging(p.generation)} + {Generation(p.generation)}
      ensures pointerFile == old(pointerFile) ||
        (pointerFile == Present(p) && installed && named && sound && IsComplete(dirs, p))
      ensures fate.Works? ==> named && sound && installed && pointerFile == Present(p)
      ensures named && sound && !Occupied(old(dirs), p.generation) ==> troubled == (old(troubled) || !fate.Works?)
    {
      fate, installed := Install(p, named, sound);
      if fate == Works {
        fate := Switch(p);
      }
    }

    /** What a failed publication leaves: its own directory goes, unless the pointer file may name it. */
    method RollBack(id: Id, installed: bool) returns (fate: Fate)
      requires Valid() && (if installed then Generation(id) in dirs else Staging(id) in dirs)
      modifies `dirs, `uuids, `troubled
      ensures Valid() && Keeps(old(dirs), dirs, Referenced(pointerFile))
      ensures OnlyWithout(old(dirs), dirs, if installed then Generation(id) else Staging(id))
      ensures installed && (!Readable(pointerFile) || id in Referenced(pointerFile)) ==> dirs == old(dirs)
      ensures old(troubled) || fate == Crashes || (fate == Throws && Readable(pointerFile)) ==> troubled
      ensures fate.Works? && !installed ==> dirs.Keys == old(dirs.Keys) - {Staging(id)}
      ensures fate.Works? && installed && id !in Referenced(pointerFile) && Readable(pointerFile) && !troubled ==>
        dirs.Keys == old(dirs.Keys) - {Generation(id)}
    {
      var named := false;
      if installed {
        var p;
        fate, p := ReadPointer();
        if fate == Crashes {
          return;
        }
        named := fate == Throws || id in Retained(p);
      }
      if named {
        return Works;
      }
      fate := RemoveDirectory(if installed then Generation(id) else Staging(id));
    }

    /** Before staging: read and validate the pointer file, prune, and make an empty staging directory. */
    method Prepare(id: Id) returns (fate: Fate, current: Option<Pointer>)
      requires Valid()
      modifies `dirs, `uuids, `troubled
      ensures Valid() && Keeps(old(dirs), dirs, Referenced(pointerFile))
      ensures Unreadable(old(dirs), pointerFile) ==> !fate.Works? && dirs == old(dirs)
      ensures fate.Works? ==>
        && pointerFile != Malformed
        && current == (if pointerFile.Present? then Some(pointerFile.pointer) else None)
        && (current.Some? ==>
          Parses(current.value) && IsComplete(dirs, current.value) && IsComplete(old(dirs), current.value))
        && dirs.Keys == Kept(pointerFile, old(dirs)) + {Staging(id)}
        && dirs[Staging(id)] == map[]
      ensures pointerFile != Malformed && Healthy(old(dirs), pointerFile) ==>
        troubled == (old(troubled) || !fate.Works?)
    {
      fate, current := ReadPointer();
      if fate != Works {
        return;
      }
      if current.Some? {
        fate := Validate(current.value);
        if fate != Works {
          return;
        }
      }
      fate := Prune(Retained(current));
      if fate != Works {
        return;
      }
      fate := Try();
      if fate != Works {
        return;
      }
      dirs := dirs[Staging(id) := map[]];
    }

    /** After the switch: prune again.  An exception becomes a warning. */
    method Finish() returns (fate: Fate)
      requires Valid() && pointerFile.Present?
      modifies `dirs, `uuids, `troubled
      ensures Valid() && Keeps(old(dirs), dirs, Referenced(pointerFile))
      ensures fate.Works? ==> dirs.Keys == Kept(pointerFile, old(dirs))
      ensures old(troubled) ==> troubled
      ensures Parses(pointerFile.pointer) ==> troubled == (old(troubled) || !fate.Works?)
    {
      var now;
      fate, now := ReadPointer();
      if fate == Works {
        fate := Prune(Retained(now));
      }
    }

    /** The end of a publication whose attempt ended in `attempt`. */
    method Conclude(attempt: Fate, id: Id, installed: bool) returns (r: Published)
      requires Valid() && (if installed then Generation(id) in dirs else Staging(id) in dirs)
      requires attempt.Works? ==> pointerFile.Present?
      modifies `dirs, `uuids, `troubled
      ensures Valid() && Keeps(old(dirs), dirs, Referenced(pointerFile)) && (old(troubled) ==> troubled)
      ensures r.Published? ==> attempt.Works?
      ensures r == Published(false) ==> dirs.Keys == Kept(pointerFile, old(dirs))
      ensures !troubled && attempt.Works? && Readable(pointerFile) ==> r == Published(false)
      ensures !troubled && attempt.Throws? && Readable(pointerFile) ==>
        && r == Error
        && (!installed ==> dirs.Keys == old(dirs.Keys) - {Staging(id)})
        && (installed && id !in Referenced(pointerFile) ==> dirs.Keys == old(dirs.Keys) - {Generation(id)})
    {
      var fate;
      if attempt == Crashes {
        return Crash;
      } else if attempt == Throws {
        fate := RollBack(id, installed);
        return Failure(fate);
      }
      fate := Finish();
      r := if fate == Crashes then Crash else Published(fate == Throws);
    }

    /** `publishOpenClawCrablineArtifactGeneration`, under the readiness lock.  `sound`: the artifacts
        pass validation; `recorder`: there is a recorder snapshot, with or without a well-formed name. */
    method Publish(id: Id, recorder: Option<bool>, sound: bool) returns (r: Published)
      requires Valid()
      modifies this
      ensures Valid()
      ensures Healthy(old(dirs), old(pointerFile)) ==>
        && Healthy(dirs, pointerFile)
        && Keeps(old(dirs), dirs, Referenced(old(pointerFile)) * Referenced(pointerFile))
      ensures pointerFile == old(pointerFile) || Follows(old(pointerFile), pointerFile, id, recorder)
      ensures r.Published? ==> Follows(old(pointerFile), pointerFile, id, recorder)
      ensures r.Published? && Healthy(old(dirs), old(pointerFile)) ==>
        KeepsCurrent(old(dirs), old(pointerFile), dirs)
      ensures r.Published? ==>
        && sound && recorder != Some(false) && Readable(old(pointerFile))
        && (old(pointerFile).Present? ==> IsComplete(old(dirs), old(pointerFile).pointer))
      ensures Unreadable(old(dirs), old(pointerFile)) ==>
        !r.Published? && dirs == old(dirs) && pointerFile == old(pointerFile)
      ensures r == Published(false) && Healthy(old(dirs), old(pointerFile)) ==>
        dirs.Keys == Named(pointerFile)
      ensures !troubled && Readable(old(pointerFile)) && Healthy(old(dirs), old(pointerFile)) ==>
        && dirs.Keys == Named(pointerFile)
        && r == if sound && recorder != Some(false) && id !in Referenced(old(pointerFile)) then Published(false)
          else Error
    {
      hide IsComplete;
      hide Unreadable;
      hide Complete, WellFormed, KeepsCurrent;
      troubled := false;
      var fate, current := Prepare(id);
      if fate != Works {
        return Failure(fate);
      }
      ghost var before := dirs;
      var p := Pointer(id, if current.Some? then Some(current.value.generation) else None, recorder.Some?);
      var installed;
      fate, installed := Attempt(p, recorder != Some(false), sound);
      ghost var after := dirs;
      r := Conclude(fate, id, installed);
      if Healthy(old(dirs), old(pointerFile)) {
        assert Kept(old(pointerFile), old(dirs)) == Named(old(pointerFile));
        StaysHealthy(old(dirs), before, old(pointerFile));
        Settled(before, after, dirs, old(pointerFile), pointerFile, p, installed);
        if r.Published? {
          CurrentStays(old(dirs), old(pointerFile), dirs, pointerFile, id, recorder);
        }
      }
    }

    /** The pointer file names the generation of this request, which is in the store with its artifacts. */
    predicate IsCurrent(requests: seq<(Id, Option<bool>, bool)>, i: nat)
      requires i < |requests|
      reads `dirs, `pointerFile
    {
      && pointerFile.Present? && pointerFile.pointer.generation == requests[i].0
      && pointerFile.pointer.recorder == requests[i].1.Some?
      && HasArtifacts(dirs, requests[i].0) && (requests[i].1.Some? <==> Recorder in dirs[Generation(requests[i].0)])
    }

    /** The pointer file names this generation as the one before, and it is in the store with its artifacts. */
    predicate IsPrevious(id: Id)
      reads `dirs, `pointerFile
    {
      pointerFile.Present? && pointerFile.pointer.previous == Some(id) && HasArtifacts(dirs, id)
    }

    /** Publications one after another, each by a process that may fail or crash anywhere. */
    method PublishAll(requests: seq<(Id, Option<bool>, bool)>) returns (results: seq<Published>)
      requires Valid() && Healthy(dirs, pointerFile)
      modifies this
      ensures Healthy(dirs, pointerFile) && |results| == |requests|
      ensures forall i | 0 <= i < |results| && results[i].Published? :: requests[i].2 && requests[i].1 != Some(false)
      ensures results != [] && results[|results| - 1] == Published(false) ==>
        dirs.Keys == Named(pointerFile)
      ensures results != [] && results[|results| - 1].Published? ==> IsCurrent(requests, |requests| - 1)
      ensures |results| > 1 && results[|results| - 1].Published? && results[|results| - 2].Published? ==>
        IsPrevious(requests[|requests| - 2].0)
    {
      results := [];
      for i := 0 to |requests|
        invariant Valid() && Healthy(dirs, pointerFile) && |results| == i
        invariant forall j | 0 <= j < |results| && results[j].Published? ::
          requests[j].2 && requests[j].1 != Some(false)
        invariant results != [] && results[|results| - 1] == Published(false) ==>
          dirs.Keys == Named(pointerFile)
        invariant i > 0 && results[i - 1].Published? ==> IsCurrent(requests, i - 1)
        invariant i > 1 && results[i - 1].Published? && results[i - 2].Published? ==> IsPrevious(requests[i - 2].0)
      {
        var r := Publish(requests[i].0, requests[i].1, requests[i].2);
        if pointerFile.Present? {
          HealthyHasArtifacts(dirs, pointerFile);
        }
        results := results + [r];
      }
    }
  }

  /** The pointer file is malformed, names one generation twice, or names one that has not all its artifacts. */
  predicate Unreadable(dirs: map<Name, Dir>, file: PointerFile) {
    || file.Malformed?
    || (file.Present? && (file.pointer.previous == Some(file.pointer.generation) ||
          !HasArtifacts(dirs, file.pointer.generation)))
  }

  /** After a publication of `id` the pointer file names it, whether it has a recorder snapshot, and the generation
      that was current before. */
  predicate Follows(before: PointerFile, after: PointerFile, id: Id, recorder: Option<bool>) {
    && after.Present? && after.pointer.generation == id && after.pointer.recorder == recorder.Some?
    && (if before.Present? then after.pointer.previous == Some(before.pointer.generation)
        else after.pointer.previous == None)
  }

  /** Its directory has the three files that every generation has, written for it. */
  predicate HasArtifacts(dirs: map<Name, Dir>, id: Id) {
    && Generation(id) in dirs
    && Manifest in dirs[Generation(id)] && dirs[Generation(id)][Manifest] == File(id, true)
    && CapabilityMatrix in dirs[Generation(id)] && dirs[Generation(id)][CapabilityMatrix] == File(id, true)
    && Readiness in dirs[Generation(id)] && dirs[Generation(id)][Readiness] == File(id, true)
  }

  lemma HealthyHasArtifacts(dirs: map<Name, Dir>, file: PointerFile)
    requires Healthy(dirs, file) && file.Present?
    ensures HasArtifacts(dirs, file.pointer.generation)
    ensures file.pointer.recorder <==> Recorder in dirs[Generation(file.pointer.generation)]
    ensures file.pointer.previous.Some? ==> HasArtifacts(dirs, file.pointer.previous.value)
  {
    assert file.pointer.generation in Referenced(file);
    assert file.pointer.previous.Some? ==> file.pointer.previous.value in Referenced(file);
  }

  /** The directory of the generation that was current is what it was. */
  predicate KeepsCurrent(before: map<Name, Dir>, file: PointerFile, after: map<Name, Dir>) {
    file.Present? ==>
      var current := Generation(file.pointer.generation);
      current in before && current in after && after[current] == before[current]
  }

  lemma CurrentStays(before: map<Name, Dir>, file: PointerFile, after: map<Name, Dir>, now: PointerFile,
                     id: Id, recorder: Option<bool>)
    requires Healthy(before, file) && Follows(file, now, id, recorder)
    requires Keeps(before, after, Referenced(file) * Referenced(now))
    ensures KeepsCurrent(before, file, after)
  {
  }

  lemma StaysHealthy(before: map<Name, Dir>, after: map<Name, Dir>, file: PointerFile)
    requires Healthy(before, file) && Keeps(before, after, Referenced(file))
    ensures Healthy(after, file)
  {
    if file.Present? {
      assert file.pointer.generation in Referenced(file);
    }
  }

  /** From a healthy store, whatever was installed and then kept leaves a healthy store. */
  lemma Settled(before: map<Name, Dir>, after: map<Name, Dir>, last: map<Name, Dir>,
                file: PointerFile, switched: PointerFile, p: Pointer, installed: bool)
    requires Healthy(before, file) && p.previous == Current(file)
    requires forall n <- before ::
      n != Staging(p.generation) && n != Generation(p.generation) ==> n in after && after[n] == before[n]
    requires if installed then !Occupied(before, p.generation) else Keeps(before, after, {p.generation})
    requires switched == file || (switched == Present(p) && installed && IsComplete(after, p))
    requires Keeps(after, last, Referenced(switched))
    ensures installed ==> p.generation !in Referenced(file)
    ensures Healthy(last, switched) && Keeps(before, last, Referenced(file) * Referenced(switched))
  {
    forall g | g in Referenced(file)
      ensures Generation(g) in after && after[Generation(g)] == before[Generation(g)] &&
        WellFormed(after[Generation(g)], g)
      ensures installed ==> g != p.generation
    {
      assert Manifest in before[Generation(g)];
    }
    if file.Present? {
      assert file.pointer.generation in Referenced(file);
    }
    StaysHealthy(after, last, switched);
  }

  predicate Occupied(dirs: map<Name, Dir>, id: Id) {
    Generation(id) in dirs && dirs[Generation(id)] != map[]
  }

  predicate IsComplete(dirs: map<Name, Dir>, p: Pointer) {
    Generation(p.generation) in dirs && Complete(dirs[Generation(p.generation)], p)
  }
}

/** The two identity operations as one process performs them while nobody else
    touches the directory (host-rs/src/identity/store.rs:46-214). The interleaved
    form is in IdentityStore; here every call may fail too. */
module IdentityFiles {
  import opened Basics
  import opened IdentityStore

  ghost predicate SameExcept(before: World, after: World, touched: set<Name>) {
    forall name :: name !in touched ==>
      (name in before.dir <==> name in after.dir)
        && (name in before.dir ==> ContentAt(after, name) == ContentAt(before, name))
  }

  ghost predicate Bounded(w: World) { forall name :: name in w.dir ==> w.dir[name] < |w.files| }

  ghost function ContentAt(w: World, name: Name): Content {
    if name in w.dir && w.dir[name] < |w.files| then w.files[w.dir[name]] else Junk
  }

  /** How `create_new` ends. */
  datatype Creation = Made | Taken | Refused

  /** `failed`: a system call has not worked. Removing a file is the one call whose
      outcome nobody looks at; its failure counts all the same. */
  class Directory {
    var dir: map<Name, nat>
    var files: seq<Content>
    ghost var used: set<nat>
    ghost var failed: bool

    constructor (world: World)
      ensures Here() == world && !failed
    {
      dir, files, used, failed := world.dir, world.files, world.used, false;
    }

    ghost function Here(): World
      reads this
    {
      World(dir, files, used)
    }

    /** Whether a system call happens to work. */
    method Works() returns (works: bool)
      modifies this`failed
      ensures failed == (old(failed) || !works)
    {
      works := *;
      if !works { failed := true; }
    }

    /** `create_new`: an empty file under a name nothing had. */
    method CreateNew(name: Name) returns (created: Creation)
      requires Bounded(Here())
      modifies this
      ensures Bounded(Here()) && used == old(used) && (old(failed) ==> failed)
      ensures created.Made? ==>
        name !in old(dir) && dir == old(dir)[name := |old(files)|] && files == old(files) + [Junk]
      ensures !created.Made? ==> Here() == old(Here())
      ensures created.Taken? ==> name in old(dir)
      ensures created.Refused? ==> failed
    {
      var works := Works();
      if !works { return Refused; }
      if name in dir { return Taken; }
      dir := dir[name := |files|];
      files := files + [Junk];
      return Made;
    }

    method Unlink(name: Name)
      requires Bounded(Here())
      modifies this
      ensures Bounded(Here()) && used == old(used) && files == old(files) && (old(failed) ==> failed)
      ensures dir == old(dir) || dir == old(dir) - {name}
      ensures !failed ==> dir == old(dir) - {name}
    {
      var works := Works();
      if works { dir := dir - {name}; }
    }

    /** The first free name of this second, now taken; at most a thousand are tried, and
        unless a call fails one of a thousand is found whenever it is there. */
    method ReserveQuarantine(time: nat) returns (r: Result<Name, Fault>)
      requires Bounded(Here())
      modifies this
      ensures Bounded(Here()) && used == old(used) && (old(failed) ==> failed)
      ensures r.Err? ==> Here() == old(Here())
      ensures r.Err? ==>
        failed || (r.error == TooMany && forall a :: 0 <= a < 1000 ==> Quarantine(time, a) in old(dir))
      ensures r == Err(TooMany) ==> forall a :: 0 <= a < 1000 ==> Quarantine(time, a) in old(dir)
      ensures r.Ok? ==>
                && r.value.Quarantine? && r.value.time == time && r.value.attempt < 1000
                && r.value !in old(dir) && dir == old(dir)[r.value := |old(files)|] && files == old(files) + [Junk]
                && forall a :: 0 <= a < r.value.attempt ==> Quarantine(time, a) in old(dir)
    {
      var attempt := 0;
      while attempt < ATTEMPTS
        invariant 0 <= attempt <= ATTEMPTS && Here() == old(Here()) && (old(failed) ==> failed)
        invariant forall a :: 0 <= a < attempt ==> Quarantine(time, a) in dir
      {
        var candidate := Quarantine(time, attempt);
        var created := CreateNew(candidate);
        match created {
          case Made => return Ok(candidate);
          case Taken =>
          case Refused => return Err(Io);
        }
        attempt := attempt + 1;
      }
      return Err(TooMany);
    }

    /** read_at: `None` when nothing is there. Unless a call fails the answer is decided by
        what is at the path. */
    method ReadAt() returns (r: Result<Option<nat>, Fault>)
      requires Bounded(Here())
      modifies this`failed
      ensures Here() == old(Here()) && (old(failed) ==> failed)
      ensures r == Ok(None) ==> Path !in dir
      ensures r.Ok? && r.value.Some? ==> Path in dir && ContentAt(Here(), Path) == Key(r.value.value)
      ensures r.Err? ==> r.error == Io || (r.error == Corrupt && Path in dir && ContentAt(Here(), Path) == Junk)
      ensures r == Err(Io) ==> failed
    {
      var works := Works();
      if !works { return Err(Io); }
      if Path !in dir { return Ok(None); }
      works := Works();
      if !works { return Err(Io); }
      match files[dir[Path]] {
        case Key(key) => return Ok(Some(key));
        case Junk => return Err(Corrupt);
      }
    }

    /** load_at: `generated` is the key `generate` would return. A stored file is
        never replaced, nor any other name touched but the temporary one; on success
        the answer is what the path holds. Unless a call fails, a stored key is what is
        returned, junk is corrupt, and where nothing is stored the generated key is stored
        and returned with no temporary file left. */
    method LoadAt(generated: nat) returns (answer: Answer)
      requires Bounded(Here())
      modifies this
      ensures Bounded(Here()) && (old(failed) ==> failed)
      ensures SameExcept(old(Here()), Here(), {Path, Tmp(generated)})
      ensures Path in old(dir) ==> Here() == old(Here())
      ensures answer.Ok? ==> Path in dir && ContentAt(Here(), Path) == Key(answer.value)
      ensures answer.Ok? && Path !in old(dir) ==> answer.value == generated
      ensures Path !in old(dir) && Path in dir ==> ContentAt(Here(), Path) == Key(generated)
      ensures answer == Err(Corrupt) ==> Path in old(dir)
      ensures !failed && Path in old(dir) ==>
        answer == match old(ContentAt(Here(), Path)) case Key(key) => Ok(key) case Junk => Err(Corrupt)
      ensures !failed && Path !in old(dir) && Tmp(generated) !in old(dir) ==>
        && answer == Ok(generated) && Path in dir && ContentAt(Here(), Path) == Key(generated)
        && SameExcept(old(Here()), Here(), {Path})
      ensures !failed && Path !in old(dir) && Tmp(generated) in old(dir) ==>
        answer == Err(Io) && Here() == old(Here())
    {
      var first := ReadAt();
      if first.Err? { return Err(first.error); }
      if first.value.Some? { return Ok(first.value.value); }
      var created := CreateNew(Tmp(generated));
      if !created.Made? { return Err(Io); }
      used := used + {generated};
      var works := Works();
      if works {
        files := files[dir[Tmp(generated)] := Key(generated)];
        works := Works();
      }
      if !works {
        Unlink(Tmp(generated));
        return Err(Io);
      }
      // The hard link: nothing is at the path, since nobody else runs.
      works := Works();
      if !works {
        Unlink(Tmp(generated));
        return Err(Io);
      }
      dir := dir[Path := dir[Tmp(generated)]];
      works := Works();
      Unlink(Tmp(generated));
      answer := if works then Ok(generated) else Err(Io);
    }

    /** replace_at: on success the old bytes are under a name that was free, a new
        key is at the path, and nothing else moved; when it fails the old bytes are
        still at the path or at a name that was free. Unless a call fails it succeeds
        whenever there is something to move aside and the two names it needs are free. */
    method ReplaceAt(time: nat, generated: nat) returns (r: Result<Name, Fault>)
      requires Bounded(Here())
      modifies this
      ensures Bounded(Here()) && (old(failed) ==> failed)
      ensures r.Ok? ==>
                && Path in old(dir) && r.value.Quarantine? && r.value !in old(dir) && r.value in dir
                && ContentAt(Here(), r.value) == old(ContentAt(Here(), Path))
                && Path in dir && ContentAt(Here(), Path) == Key(generated)
                && SameExcept(old(Here()), Here(), {Path, Tmp(generated), r.value})
      ensures r.Err? && Path in old(dir) ==>
                exists name :: name in dir && (name == Path || (name.Quarantine? && name !in old(dir)))
                               && ContentAt(Here(), name) == old(ContentAt(Here(), Path))
      ensures Path !in old(dir) ==> r == Err(Nothing) && Here() == old(Here())
      ensures !failed && Path in old(dir) && Tmp(generated) !in old(dir)
              && (exists a :: 0 <= a < 1000 && Quarantine(time, a) !in old(dir)) ==>
                && r.Ok? && r.value.time == time && Tmp(generated) !in dir
                && forall a :: 0 <= a < r.value.attempt ==> Quarantine(time, a) in old(dir)
      ensures !failed && Path in old(dir) && (forall a :: 0 <= a < 1000 ==> Quarantine(time, a) in old(dir)) ==>
                r == Err(TooMany) && Here() == old(Here())
    {
      var exists_ := Works();
      if !exists_ || Path !in dir {
        if Path in dir { assert ContentAt(Here(), Path) == old(ContentAt(Here(), Path)); }
        return Err(Nothing);
      }
      var reserved := ReserveQuarantine(time);
      if reserved.Err? {
        assert ContentAt(Here(), Path) == old(ContentAt(Here(), Path));
        return Err(reserved.error);
      }
      var quarantine := reserved.value;
      assert ContentAt(Here(), Path) == old(ContentAt(Here(), Path));
      var works := Works();
      if !works {
        Unlink(quarantine);
        assert Path in dir && ContentAt(Here(), Path) == old(ContentAt(Here(), Path));
        return Err(Io);
      }
      dir := (dir - {Path})[quarantine := dir[Path]];
      assert ContentAt(Here(), quarantine) == old(ContentAt(Here(), Path));
      var loaded := LoadAt(generated);
      assert quarantine in dir && ContentAt(Here(), quarantine) == old(ContentAt(Here(), Path));
      if loaded.Err? { return Err(loaded.error); }
      return Ok(quarantine);
    }
  }
}

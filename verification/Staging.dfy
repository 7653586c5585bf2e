/** Activation of a staged pack, with rollback.

    The file system is a map from paths to contents, and every operation may
    fail: which ones do is decided by an arbitrary script, one entry per
    operation.  Renaming is atomic, as the code requires. */
module Staging {
  import opened Options

  type Bytes = seq<int>

  /** A path holds a regular file, or something that is not one. */
  datatype Node = Regular(data: Bytes) | Other

  /** Something that is not a regular file stands there. */
  predicate Occupied(files: map<string, Node>, path: string) { path in files && files[path].Other? }

  predicate Holds(files: map<string, Node>, path: string) { path in files && files[path].Regular? }

  class FileSystem {
    var files: map<string, Node>
    var clock: nat
    const fails: nat -> bool
    const short: nat -> nat

    constructor (files: map<string, Node>, fails: nat -> bool, short: nat -> nat)
      ensures this.files == files && this.fails == fails
    {
      this.files, this.clock, this.fails, this.short := files, 0, fails, short;
    }

    /** No operation from now on fails. */
    ghost predicate Reliable() reads this { forall n :: clock <= n ==> !fails(n) }

    /** Does the next operation fail? */
    method Fault() returns (fault: bool)
      modifies this`clock
      ensures fault == fails(old(clock)) && clock == old(clock) + 1
    {
      fault := fails(clock);
      clock := clock + 1;
    }

    method ReadFile(path: string) returns (r: Option<Bytes>)
      modifies this`clock
      ensures r.Some? ==> path in files && files[path] == Regular(r.value)
      ensures old(Reliable()) ==> Reliable() && (r.Some? <==> Holds(files, path))
    {
      var fault := Fault();
      if fault || path !in files || files[path].Other? { return None; }
      r := Some(files[path].data);
    }

    /** os.CreateTemp: an empty file under a name not in use. */
    method CreateTemp(name: string) returns (ok: bool)
      requires name !in files
      modifies this
      ensures files == if ok then old(files)[name := Regular([])] else old(files)
      ensures old(Reliable()) ==> Reliable() && ok
    {
      var fault := Fault();
      if fault { return false; }
      files := files[name := Regular([])];
      ok := true;
    }

    /** Appends all of `data`, or a part of it and reports an error. */
    method Append(path: string, data: Bytes) returns (ok: bool)
      requires path in files && files[path].Regular?
      modifies this
      ensures files.Keys == old(files).Keys && files[path].Regular?
      ensures forall p :: p in files && p != path ==> files[p] == old(files)[p]
      ensures ok ==> files[path] == Regular(old(files)[path].data + data)
      ensures old(Reliable()) ==> Reliable() && ok
    {
      var part := short(clock) % (|data| + 1);
      var fault := Fault();
      var written := if fault then data[..part] else data;
      files := files[path := Regular(files[path].data + written)];
      ok := !fault;
    }

    method Rename(from: string, to: string) returns (ok: bool)
      modifies this
      ensures ok ==> from in old(files) && files == (old(files) - {from})[to := old(files)[from]]
      ensures !ok ==> files == old(files)
      ensures old(Reliable()) ==> Reliable() && (ok <==> from in old(files) && !Occupied(old(files), to))
    {
      var fault := Fault();
      if fault || from !in files || Occupied(files, to) { return false; }
      var node := files[from];
      files := (files - {from})[to := node];
      ok := true;
    }

    method Remove(path: string) returns (ok: bool)
      modifies this
      ensures files == if ok then old(files) - {path} else old(files)
      ensures old(Reliable()) ==> Reliable() && ok
    {
      var fault := Fault();
      if fault { return false; }
      files := files - {path};
      ok := true;
    }
  }

  /** `securetemp.File`. */
  class TempFile {
    const path: string
    var closed: bool
    var committed: bool

    constructor (path: string)
      ensures this.path == path && !closed && !committed
    {
      this.path, closed, committed := path, false, false;
    }

    method Write(fs: FileSystem, data: Bytes) returns (ok: bool)
      requires path in fs.files && fs.files[path].Regular?
      modifies fs
      ensures path in fs.files && fs.files[path].Regular?
      ensures Same(fs.files, old(fs.files), {path})
      ensures closed ==> !ok
      ensures ok ==> fs.files[path] == Regular(old(fs.files)[path].data + data)
      ensures old(fs.Reliable()) ==> fs.Reliable() && (ok <==> !closed)
    {
      if closed { return false; }
      ok := fs.Append(path, data);
    }

    /** Syncs, closes and renames; a committed file cannot be committed again. */
    method Commit(fs: FileSystem, target: string) returns (ok: bool)
      modifies this, fs
      ensures ok ==> !old(committed) && committed && path in old(fs.files)
                     && fs.files == (old(fs.files) - {path})[target := old(fs.files)[path]]
      ensures !ok ==> fs.files == old(fs.files) && committed == old(committed)
      ensures old(closed) ==> closed
      ensures old(fs.Reliable()) ==>
                && fs.Reliable()
                && (ok <==> !old(committed) && path in old(fs.files) && !Occupied(old(fs.files), target))
    {
      if committed { return false; }
      if !closed {
        var fault := fs.Fault();
        if fault { return false; }
        fault := fs.Fault();
        if fault { return false; }
        closed := true;
      }
      ok := fs.Rename(path, target);
      if ok { committed := true; }
    }

    /** Closes the file and removes it unless it was committed; the error is ignored by all callers. */
    method Cleanup(fs: FileSystem)
      modifies this, fs
      ensures closed && committed == old(committed)
      ensures fs.files == old(fs.files) || (!committed && fs.files == old(fs.files) - {path})
      ensures old(fs.Reliable()) ==> fs.Reliable() && (!committed ==> fs.files == old(fs.files) - {path})
    {
      closed := true;
      if !committed {
        var ok := fs.Remove(path);
      }
    }
  }

  /** Two file trees differ at most in the given paths. */
  ghost predicate Same(a: map<string, Node>, b: map<string, Node>, except: set<string>) {
    forall p :: p !in except ==> (p in a <==> p in b) && (p in a ==> a[p] == b[p])
  }

  predicate SameAt(a: map<string, Node>, b: map<string, Node>, path: string) {
    if path in b then path in a && a[path] == b[path] else path !in a
  }

  datatype Activation = Activated | Refused | RolledBack | RollbackFailed

  /** Parsing and compiling the pack, and the check made after the rename: any functions of the bytes. */
  datatype Checks = Checks(accepts: Bytes -> bool, verifies: Bytes -> bool)

  /** The verification after the rename; reading the target back may fail. */
  method Verify(fs: FileSystem, target: string, expected: Bytes, checks: Checks) returns (ok: bool)
    modifies fs`clock
    ensures ok ==> target in fs.files && fs.files[target] == Regular(expected) && checks.verifies(expected)
    ensures old(fs.Reliable()) ==>
              && fs.Reliable()
              && (ok <==> target in fs.files && fs.files[target] == Regular(expected) && checks.verifies(expected))
  {
    var data := fs.ReadFile(target);
    ok := data.Some? && data.value == expected && checks.verifies(data.value);
  }

  datatype Backup = NoBackup | Saved(file: TempFile)

  datatype BackupResult = Ready(backup: Backup) | Unavailable

  /** The backup is ready: there is none and nothing stands at the target, or it is a copy of the target. */
  ghost predicate Backs(fs: FileSystem, target: string, backup: Backup)
    reads fs, if backup.Saved? then {backup.file} else {}
  {
    if backup.NoBackup? then target !in fs.files
    else
      && !backup.file.committed && backup.file.path != target
      && Holds(fs.files, target) && backup.file.path in fs.files && fs.files[backup.file.path] == fs.files[target]
  }

  /** `stageActivationBackup`: a copy of what the target holds, if it holds anything. */
  method StageBackup(fs: FileSystem, target: string, name: string) returns (r: BackupResult)
    requires name !in fs.files && name != target
    modifies fs
    ensures Same(fs.files, old(fs.files), {name}) && SameAt(fs.files, old(fs.files), target)
    ensures r.Ready? && r.backup.NoBackup? ==> fs.files == old(fs.files)
    ensures r.Ready? ==> Backs(fs, target, r.backup) && fs.files - {name} == old(fs.files)
    ensures r.Ready? && r.backup.Saved? ==> fresh(r.backup.file) && r.backup.file.path == name
    ensures old(fs.Reliable()) ==>
              && fs.Reliable() && (r.Ready? <==> !Occupied(old(fs.files), target))
              && (!r.Ready? ==> fs.files == old(fs.files))
  {
    var fault := fs.Fault();
    if fault { return Unavailable; }
    if target !in fs.files { return Ready(NoBackup); }
    if fs.files[target].Other? { return Unavailable; }
    var data := fs.ReadFile(target);
    if data.None? { return Unavailable; }
    var created := fs.CreateTemp(name);
    if !created { return Unavailable; }
    var backup := new TempFile(name);
    var written := backup.Write(fs, data.value);
    if !written {
      backup.Cleanup(fs);
      return Unavailable;
    }
    r := Ready(Saved(backup));
  }

  /** `rollbackActivation`: puts the backup back, or removes the target. */
  method Rollback(fs: FileSystem, target: string, backup: Backup) returns (ok: bool)
    modifies fs, if backup.Saved? then {backup.file} else {}
    ensures !ok ==> fs.files == old(fs.files)
    ensures ok && backup.Saved? ==>
              && backup.file.path in old(fs.files) && backup.file.committed
              && fs.files == (old(fs.files) - {backup.file.path})[target := old(fs.files)[backup.file.path]]
    ensures ok && backup.NoBackup? ==> fs.files == old(fs.files) - {target}
    ensures !ok && backup.Saved? ==> backup.file.committed == old(backup.file.committed)
    ensures old(fs.Reliable()) ==>
              && fs.Reliable()
              && (ok <==> && (backup.Saved? ==> !old(backup.file.committed) && backup.file.path in old(fs.files))
                          && !Occupied(old(fs.files), target))
  {
    if backup.Saved? {
      ok := backup.file.Commit(fs, target);
      return;
    }
    var fault := fs.Fault();
    if fault { return false; }
    if target !in fs.files { return true; }
    if fs.files[target].Other? { return false; }
    ok := fs.Remove(target);
  }

  /** The rename, the verification behind it and the rollback: the middle part of `activateStagedPack`. */
  method Replace(fs: FileSystem, staged: TempFile, data: Bytes, target: string, backup: Backup, checks: Checks)
    returns (r: Activation)
    requires staged.path != target && staged.path in fs.files && fs.files[staged.path] == Regular(data)
    requires Backs(fs, target, backup) && (backup.Saved? ==> backup.file != staged && backup.file.path != staged.path)
    modifies fs, staged, if backup.Saved? then {backup.file} else {}
    ensures match r
            case Refused => fs.files == old(fs.files)
            case RolledBack =>
              && (backup.Saved? ==> backup.file.committed)
              && fs.files == old(fs.files) - {staged.path} - (if backup.Saved? then {backup.file.path} else {})
            case _ => fs.files == (old(fs.files) - {staged.path})[target := Regular(data)]
    ensures r.Activated? ==> checks.verifies(data)
    ensures backup.Saved? && !r.RolledBack? ==> !backup.file.committed
    ensures old(fs.Reliable()) ==>
              fs.Reliable()
              && r == if old(staged.committed) then Refused else if checks.verifies(data) then Activated else RolledBack
  {
    var committed := staged.Commit(fs, target);
    if !committed { return Refused; }
    var verified := Verify(fs, target, data, checks);
    if verified { return Activated; }
    var rolledBack := Rollback(fs, target, backup);
    r := if rolledBack then RolledBack else RollbackFailed;
  }

  /** How an activation ends when no operation fails. */
  function Outcome(files: map<string, Node>, staged: string, committed: bool, target: string, checks: Checks)
    : Activation
  {
    if !Holds(files, staged) || !checks.accepts(files[staged].data) || Occupied(files, target) || committed then Refused
    else if checks.verifies(files[staged].data) then Activated
    else RolledBack
  }

  /** `activateStagedPack`.  For every file tree and every choice of failing operations: on success the
      target holds the staged bytes; on any error without a failed rollback it is exactly as before; and
      no path other than the target and the two temporary files changes.  Where no operation fails, the
      files alone decide the outcome, and neither temporary file outlives an activation or a rollback. */
  method Activate(fs: FileSystem, staged: TempFile, target: string, name: string, checks: Checks)
    returns (r: Activation)
    requires staged.path != target && name != target && name != staged.path && name !in fs.files
    modifies fs, staged
    ensures Same(fs.files, old(fs.files), {target, staged.path, name})
    ensures r.Activated? ==>
              && staged.path in old(fs.files) && old(fs.files)[staged.path].Regular?
              && target in fs.files && fs.files[target] == old(fs.files)[staged.path]
              && checks.accepts(fs.files[target].data) && checks.verifies(fs.files[target].data)
    ensures r.Refused? || r.RolledBack? ==> SameAt(fs.files, old(fs.files), target)
    ensures r.RollbackFailed?
            ==> target in fs.files && staged.path in old(fs.files) && fs.files[target] == old(fs.files)[staged.path]
    ensures old(fs.Reliable()) ==>
              && r == Outcome(old(fs.files), staged.path, old(staged.committed), target, checks)
              && match r
                 case Activated => fs.files == (old(fs.files) - {staged.path})[target := old(fs.files)[staged.path]]
                 case RolledBack => fs.files == old(fs.files) - {staged.path}
                 case _ => fs.files == old(fs.files)
  {
    var data := fs.ReadFile(staged.path);
    if data.None? || !checks.accepts(data.value) { return Refused; }
    var saved := StageBackup(fs, target, name);
    if saved.Unavailable? { return Refused; }
    r := Replace(fs, staged, data.value, target, saved.backup, checks);
    if saved.backup.Saved? { saved.backup.file.Cleanup(fs); }
    assert r.RolledBack? ==> fs.files == old(fs.files) - {staged.path};
  }
}

/**
 * The asset store and the asset manager as objects whose methods update fields and files in
 * place; each method is proved against its step function in Assets.
 */
module AssetObjects {
  import opened Base
  import opened Jobs
  import opened Assets

  class FileSystem {
    var files: Files

    constructor ()
      ensures files == map[]
    {
      files := map[];
    }

    method Unlink(path: string)
      modifies this
      ensures files == old(files) - {path}
    {
      files := files - {path};
    }

    method InstallFile(from: string, to: string, f: InstallFault) returns (ok: bool)
      modifies this
      ensures (ok, files) == Install(old(files), from, to, f)
    {
      if !(f.RenameFails? && !f.unlinked) {
        Unlink(to);
      }
      if f.RenameFails? || from !in files {
        return false;
      }
      files := (files - {from})[to := files[from]];
      assert files == (old(files) - {from})[to := old(files)[from]];
      ok := true;
    }
  }

  /**
   * hash_file: the file is read in 512-byte pieces, each fed to an incremental hash; finishing
   * the operation yields the hash of the concatenation.
   */
  method HashFile(sha: Bytes -> Digest, fs: Files, path: string, readable: bool) returns (r: Err, digest: Digest)
    ensures path !in fs <==> r == NotFound
    ensures r == Ok <==> path in fs && readable
    ensures r == Ok ==> digest == sha(fs[path])
  {
    digest := [];
    if path !in fs {
      return NotFound, [];
    }
    var data := fs[path];
    var hashed, cursor := [], 0;
    while cursor < |data|
      invariant 0 <= cursor <= |data| && hashed == data[..cursor]
    {
      var n := Min(512, |data| - cursor);
      hashed := hashed + data[cursor..cursor + n];
      cursor := cursor + n;
    }
    if !readable {
      return Fail, [];
    }
    assert data[..cursor] == data;
    r, digest := Ok, sha(hashed);
  }

  class AssetStore {
    const fs: FileSystem
    const sha: Bytes -> Digest
    var open: bool
    var name: string
    var expected: Digest
    var size: nat
    var written: nat
    var hashed: Bytes

    ghost function View(): Store
      reads this, fs
    {
      Store(if open then Upload.Open(name, expected, size, written, hashed) else Idle, fs.files)
    }

    constructor (sha: Bytes -> Digest, fs: FileSystem)
      ensures this.fs == fs && this.sha == sha && View() == Store(Idle, fs.files)
    {
      this.fs, this.sha, open := fs, sha, false;
      name, expected, size, written, hashed := "", [], 0, 0, [];
    }

    method AbortUpload()
      modifies this, fs
      ensures View() == Abort(old(View()))
      ensures !open && (old(open) ==> fs.files == old(fs.files) - {PartPath(name)})
    {
      if !open {
        return;
      }
      open := false;
      fs.Unlink(PartPath(name));
    }

    method IsPresent(path: string, expectSize: nat, digest: Digest, readable: bool) returns (b: bool)
      ensures b == (readable && Present(sha, fs.files, path, expectSize, digest))
      ensures b ==> path in fs.files && |fs.files[path]| == expectSize && sha(fs.files[path]) == digest
    {
      if path !in fs.files || |fs.files[path]| != expectSize {
        return false;
      }
      var r, actual := HashFile(sha, fs.files, path, readable);
      b := r == Ok && actual == digest;
    }

    method BeginUpload(newName: string, newSize: nat, digest: Digest, f: BeginFault)
      returns (err: Err, present: bool, offset: nat)
      modifies this, fs
      ensures BeginOut(err, present, offset, View()) == Begin(sha, old(View()), newName, newSize, digest, f)
    {
      present, offset := false, 0;
      if !ValidName(newName) || newSize == 0 {
        return InvalidArg, false, 0;
      }
      if newName == JOB_NAME {
        return NotAllowed, false, 0;
      }
      if open && name == newName && size == newSize && expected == digest {
        return Ok, false, written;
      }
      AbortUpload();
      PathsOfValidNames(newName);
      var path, part := MakePath(newName, ""), MakePath(newName, PART_SUFFIX);
      if path.None? || part.None? {
        return InvalidArg, false, 0;
      }
      var here := IsPresent(path.value, newSize, digest, f.hashReadable);
      if here {
        return Ok, true, newSize;
      }
      if !f.spaceOk {
        return NoMem, false, 0;
      }
      if !f.hashSetupOk || !f.openOk {
        return Fail, false, 0;
      }
      open, name, expected, size, written, hashed := true, newName, digest, newSize, 0, [];
      fs.files := fs.files[part.value := []];
      err := Ok;
    }

    method WriteChunk(offset: nat, data: Bytes, accepted: bool) returns (err: Err)
      requires UploadInv(View())
      modifies this, fs
      ensures Out(err, View()) == Write(old(View()), offset, data, accepted)
      ensures UploadInv(View())
    {
      WriteKeeps(View(), offset, data, accepted);
      if !open {
        return InvalidState;
      }
      if offset != written {
        return InvalidArg;
      }
      if |data| == 0 || |data| > size - written {
        return InvalidSize;
      }
      if !accepted {
        AbortUpload();
        return Fail;
      }
      var part := PartPath(name);
      fs.files := fs.files[part := fs.files[part] + data];
      hashed, written := hashed + data, written + |data|;
      err := Ok;
    }

    method CommitUpload(f: CommitFault) returns (err: Err)
      requires UploadInv(View())
      modifies this, fs
      ensures Out(err, View()) == Commit(sha, old(View()), f)
      ensures UploadInv(View())
    {
      CommitKeeps(sha, View(), f);
      if !open {
        return InvalidState;
      }
      if written != size {
        return InvalidSize;
      }
      var actual := sha(hashed);
      open := false;
      var part := PartPath(name);
      err := Ok;
      if !f.hashOk || !f.closeOk {
        err := Fail;
      } else if actual != expected {
        err := InvalidCrc;
      } else {
        var ok := fs.InstallFile(part, InstallPath(name), f.install);
        err := if ok then Ok else Fail;
      }
      if err != Ok {
        fs.Unlink(part);
      }
    }
  }

  /** Hash every pinned file; stops at the first one that is missing, unreadable or different. */
  method VerifyJobImages(env: Env, fs: Files, job: Job, readable: nat -> bool) returns (r: Err)
    ensures r == Ok <==> PinsMatch(env, fs, job) && forall k :: 0 <= k < |Pins(job)| ==> readable(k)
    ensures r == Ok ==>
              forall k :: 0 <= k < |Pins(job)| ==>
                  Pins(job)[k].path in fs && env.sha(fs[Pins(job)[k].path]) == Pins(job)[k].sha
  {
    var pins := Pins(job);
    for k := 0 to |pins|
      invariant forall j :: 0 <= j < k ==> readable(j) && pins[j].path in fs && env.sha(fs[pins[j].path]) == pins[j].sha
    {
      var digest;
      r, digest := HashFile(env.sha, fs, pins[k].path, readable(k));
      if r != Ok {
        return;
      }
      if digest != pins[k].sha {
        return InvalidCrc;
      }
    }
    r := Ok;
  }

  class AssetManager {
    const env: Env
    const fs: FileSystem
    const cfg: TargetConfig
    var job: Option<Decoded>
    var activeSha: Digest

    ghost function View(): Manager
      reads this
    {
      Manager(job, activeSha)
    }

    /** The published configuration is always the one of the published job. */
    ghost predicate Valid()
      reads this, cfg, cfg.ramRegions, cfg.images, cfg.tests
    {
      && cfg.Valid()
      && (job.Some? ==> Accepted(job.value.job, job.value.blob) && BlobFits(job.value.blob))
      && (job.Some? ==> cfg.View() == ConfigOf(job.value.job, job.value.blob))
    }

    /** The decoder never yields more entries than the message arrays hold, nor a blob of 4 GiB. */
    ghost predicate BoundedDecoder() {
      forall b :: env.parse(b).Some? ==> WithinLimits(env.parse(b).value.job) && BlobFits(env.parse(b).value.blob)
    }

    constructor (env: Env, fs: FileSystem)
      ensures Valid() && this.env == env && this.fs == fs && job == None && fresh(cfg)
      ensures fresh(cfg.ramRegions) && fresh(cfg.images) && fresh(cfg.tests)
    {
      this.env, this.fs, job, activeSha := env, fs, None, [];
      cfg := new TargetConfig();
    }

    method Publish(d: Decoded, sha: Digest)
      requires Valid() && Accepted(d.job, d.blob) && WithinLimits(d.job) && BlobFits(d.blob)
      modifies this, cfg, cfg.ramRegions, cfg.images, cfg.tests
      ensures Valid() && View() == Manager(Some(d), sha)
    {
      job, activeSha := Some(d), sha;
      cfg.FillTargetConfig(d.job, d.blob);
    }

    method DecodePath(path: string, decodable: bool) returns (d: Option<Decoded>)
      ensures d.Some? <==> decodable && Decodable(env, fs.files, path)
      ensures d.Some? ==> env.parse(fs.files[path]) == d
    {
      if !decodable || path !in fs.files || fs.files[path] == [] || env.parse(fs.files[path]).None? {
        return None;
      }
      var p := env.parse(fs.files[path]).value;
      var r := ValidateJob(p.job, p.blob);
      if r == Ok {
        r := VerifyJobImages(env, fs.files, p.job, _ => true);
      }
      d := if r == Ok then Some(p) else None;
    }

    method Boot(readable: bool) returns (r: Err)
      requires Valid() && BoundedDecoder() && job == None && activeSha == []
      modifies this, cfg, cfg.ramRegions, cfg.images, cfg.tests
      ensures Valid() && View() == LoadAtBoot(env, fs.files, readable)
    {
      var digest;
      r, digest := HashFile(env.sha, fs.files, JOB_PATH, readable);
      if r != Ok {
        return;
      }
      var d := DecodePath(JOB_PATH, true);
      if d.None? {
        return Fail;
      }
      Publish(d.value, digest);
    }

    method ActivateStaged(sha: Digest, f: ActivateFault) returns (r: Err)
      requires Valid() && BoundedDecoder()
      modifies this, fs, cfg, cfg.ramRegions, cfg.images, cfg.tests
      ensures Valid() && ManagerOut(r, View(), fs.files) == Activate(env, old(View()), old(fs.files), sha, f)
    {
      if job.Some? && activeSha == sha {
        return Ok;
      }
      var staged;
      r, staged := HashFile(env.sha, fs.files, STAGED_JOB_PATH, f.hashReadable);
      if r != Ok || staged != sha {
        return NotFound;
      }
      var d := DecodePath(STAGED_JOB_PATH, f.decodable);
      if d.None? {
        return Fail;
      }
      var ok := fs.InstallFile(STAGED_JOB_PATH, JOB_PATH, f.install);
      if !ok {
        return Fail;
      }
      Publish(d.value, sha);
      r := Ok;
    }
  }
}

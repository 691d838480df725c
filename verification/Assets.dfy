/**
 * The asset directory and the active job, as step functions over (upload, files) and
 * (manager, files): main/prog/asset_store.cpp and main/prog/fw_asset_manager.cpp.
 * SHA-256 and Protocol Buffers parsing are arbitrary functions carried by Env; every
 * fallible library call takes its outcome from a fault argument.
 */
module Assets {
  import opened Base
  import opened Jobs

  datatype Env = Env(sha: Bytes -> Digest, parse: Bytes -> Option<Decoded>)

  // ---- names and paths ---------------------------------------------------

  const DIR_PREFIX := "/data/"
  const PART_SUFFIX := ".part"
  const MAX_NAME_LEN := 31
  const MAX_PATH_LEN := 64
  const JOB_NAME := "job.pb"
  const JOB_PATH := "/data/job.pb"
  const STAGED_JOB_PATH := "/data/job.pb.new"

  predicate HasSuffix(s: string, suffix: string) {
    |s| >= |suffix| && s[|s| - |suffix|..] == suffix
  }

  predicate AllowedChar(c: char) {
    'a' <= c <= 'z' || '0' <= c <= '9' || c == '.' || c == '_' || c == '-'
  }

  predicate ValidName(name: string) {
    && 0 < |name| <= MAX_NAME_LEN && name[0] != '.' && name[|name| - 1] != '.'
    && (forall i :: 0 <= i < |name| ==> AllowedChar(name[i]))
    && !HasSuffix(name, PART_SUFFIX)
  }

  /** One to 31 lower-case letters, digits, dots, underscores and dashes, not between dots, and no part file. */
  lemma ValidNameIff(name: string)
    ensures ValidName(name) <==>
            && 1 <= |name| <= 31 && name[0] != '.' && name[|name| - 1] != '.'
            && (forall i :: 0 <= i < |name| ==>
                  'a' <= name[i] <= 'z' || '0' <= name[i] <= '9' || name[i] == '.' || name[i] == '_' || name[i] == '-')
            && !(|name| >= 5 && name[|name| - 5..] == ".part")
  {
  }

  /** snprintf into a MAX_PATH_LEN buffer: None when the result was truncated. */
  function MakePath(name: string, suffix: string): Option<string> {
    var p := DIR_PREFIX + name + suffix;
    if |p| < MAX_PATH_LEN then Some(p) else None
  }

  function InstallPath(name: string): string { DIR_PREFIX + name }
  function PartPath(name: string): string { DIR_PREFIX + name + PART_SUFFIX }

  /** A path some upload could be writing. */
  ghost predicate IsPartPath(p: string) { exists n :: ValidName(n) && p == PartPath(n) }

  lemma PathsOfValidNames(name: string)
    requires ValidName(name)
    ensures MakePath(name, "") == Some(InstallPath(name))
    ensures MakePath(name, PART_SUFFIX) == Some(PartPath(name))
  {
    assert DIR_PREFIX + name + "" == InstallPath(name);
  }

  /** An upload in progress can never be mistaken for, or overwrite, an installed asset. */
  lemma PartNeverInstalled(part: string, name: string)
    requires ValidName(name)
    ensures PartPath(part) != InstallPath(name)
  {
    assert InstallPath(name)[|DIR_PREFIX|..] == name;
    assert PartPath(part)[|DIR_PREFIX|..] == part + PART_SUFFIX;
    assert HasSuffix(part + PART_SUFFIX, PART_SUFFIX);
  }

  lemma PathsInjective(m: string, n: string)
    ensures InstallPath(m) == InstallPath(n) ==> m == n
    ensures PartPath(m) == PartPath(n) ==> m == n
  {
    assert InstallPath(m)[|DIR_PREFIX|..] == m && InstallPath(n)[|DIR_PREFIX|..] == n;
    assert PartPath(m)[|DIR_PREFIX|..][..|m|] == m && PartPath(n)[|DIR_PREFIX|..][..|n|] == n;
    if PartPath(m) == PartPath(n) {
      assert |m| == |n|;
    }
  }

  /** The three fixed files are installed assets, never partial uploads. */
  lemma FixedPathsNotPart(p: string)
    requires p == JOB_PATH || p == STAGED_JOB_PATH || p == FIRMWARE_PATH
    ensures !IsPartPath(p)
  {
    assert p[|p| - 5] != PART_SUFFIX[0];
    forall n | ValidName(n)
      ensures p != PartPath(n)
    {
      assert PartPath(n)[|PartPath(n)| - 5] == PART_SUFFIX[0];
    }
  }

  function DropDots(name: string): string {
    if name != [] && name[|name| - 1] == '.' then DropDots(name[..|name| - 1]) else name
  }

  /** How FAT matches a file name: letters without case, trailing dots dropped. */
  function FatName(name: string): string {
    var n := DropDots(name);
    seq(|n|, i requires 0 <= i < |n| => if 'A' <= n[i] <= 'Z' then n[i] - 'A' + 'a' else n[i])
  }

  /**
   * Only one spelling of each name is accepted: among accepted names and their part files, FAT
   * identifies exactly what string comparison identifies.
   */
  lemma OneSpelling(name: string)
    requires ValidName(name)
    ensures FatName(name) == name && FatName(name + PART_SUFFIX) == name + PART_SUFFIX
  {
    var part := name + PART_SUFFIX;
    forall i | 0 <= i < |part|
      ensures !('A' <= part[i] <= 'Z')
    {
      if i < |name| {
        assert AllowedChar(name[i]);
      } else {
        assert part[i] == PART_SUFFIX[i - |name|];
      }
    }
    assert forall i :: 0 <= i < |name| ==> name[i] == part[i];
    AlreadyFat(name);
    AlreadyFat(part);
  }

  lemma AlreadyFat(name: string)
    requires name != [] && name[|name| - 1] != '.' && forall i :: 0 <= i < |name| ==> !('A' <= name[i] <= 'Z')
    ensures FatName(name) == name
  {
    assert DropDots(name) == name;
  }

  /** Other spellings are other strings: the model does not see that this one names a part file. */
  lemma OtherSpelling()
    ensures FatName("X.PART") == "x" + PART_SUFFIX && !IsPartPath(DIR_PREFIX + "X.PART")
  {
    var p := DIR_PREFIX + "X.PART";
    assert p[|p| - 5] == '.' && p[|p| - 4] == 'P';
    forall n | ValidName(n)
      ensures p != PartPath(n)
    {
      assert PartPath(n)[|PartPath(n)| - 4] == PART_SUFFIX[1];
    }
    assert FatName("X.PART") == "x.part";
  }

  // ---- uploads -----------------------------------------------------------

  datatype Upload = Idle | Open(name: string, expected: Digest, size: nat, written: nat, hashed: Bytes)
  datatype Store = Store(up: Upload, fs: Files)

  datatype BeginFault = BeginFault(hashReadable: bool, spaceOk: bool, hashSetupOk: bool, openOk: bool)
  datatype InstallFault = NoFault | RenameFails(unlinked: bool)
  datatype CommitFault = CommitFault(hashOk: bool, closeOk: bool, install: InstallFault)

  datatype BeginOut = BeginOut(err: Err, present: bool, offset: nat, st: Store)
  datatype Out = Out(err: Err, st: Store)

  /** unlink(to), then rename(from, to). A failed rename can leave no file at the destination. */
  function Install(fs: Files, from: string, to: string, f: InstallFault): (bool, Files) {
    if f.RenameFails? then (false, if f.unlinked then fs - {to} else fs)
    else if from !in fs - {to} then (false, fs - {to})
    else (true, (fs - {from})[to := fs[from]])
  }

  function Abort(st: Store): Store {
    if st.up.Idle? then st else Store(Idle, st.fs - {PartPath(st.up.name)})
  }

  predicate Present(sha: Bytes -> Digest, fs: Files, path: string, size: nat, digest: Digest) {
    path in fs && |fs[path]| == size && sha(fs[path]) == digest
  }

  function Begin(sha: Bytes -> Digest, st: Store, name: string, size: nat, digest: Digest, f: BeginFault): BeginOut {
    if !ValidName(name) || size == 0 then BeginOut(InvalidArg, false, 0, st)
    else if name == JOB_NAME then BeginOut(NotAllowed, false, 0, st)
    else if st.up.Open? && st.up.name == name && st.up.size == size && st.up.expected == digest then
      BeginOut(Ok, false, st.up.written, st)
    else
      var st1 := Abort(st);
      if f.hashReadable && Present(sha, st1.fs, InstallPath(name), size, digest) then BeginOut(Ok, true, size, st1)
      else if !f.spaceOk then BeginOut(NoMem, false, 0, st1)
      else if !f.hashSetupOk || !f.openOk then BeginOut(Fail, false, 0, st1)
      else BeginOut(Ok, false, 0, Store(Open(name, digest, size, 0, []), st1.fs[PartPath(name) := []]))
  }

  function Write(st: Store, offset: nat, data: Bytes, accepted: bool): Out {
    if st.up.Idle? then Out(InvalidState, st)
    else if offset != st.up.written then Out(InvalidArg, st)
    else if |data| == 0 || st.up.written + |data| > st.up.size then Out(InvalidSize, st)
    else if !accepted then Out(Fail, Abort(st))
    else
      var part := PartPath(st.up.name);
      var old' := if part in st.fs then st.fs[part] else [];
      Out(Ok, Store(st.up.(written := st.up.written + |data|, hashed := st.up.hashed + data),
                    st.fs[part := old' + data]))
  }

  function Commit(sha: Bytes -> Digest, st: Store, f: CommitFault): Out {
    if st.up.Idle? then Out(InvalidState, st)
    else if st.up.written != st.up.size then Out(InvalidSize, st)
    else
      var part := PartPath(st.up.name);
      if !f.hashOk || !f.closeOk then Out(Fail, Abort(st))
      else if sha(st.up.hashed) != st.up.expected then Out(InvalidCrc, Abort(st))
      else
        var (ok, fs') := Install(st.fs, part, InstallPath(st.up.name), f.install);
        if ok then Out(Ok, Store(Idle, fs')) else Out(Fail, Store(Idle, fs' - {part}))
  }

  /** The part file is what was hashed, its length is `written`, and that never passes `size`. */
  predicate UploadInv(st: Store) {
    st.up.Open? ==>
      && ValidName(st.up.name) && st.up.name != JOB_NAME
      && 0 < st.up.size && st.up.written <= st.up.size
      && PartPath(st.up.name) in st.fs && st.fs[PartPath(st.up.name)] == st.up.hashed
      && |st.up.hashed| == st.up.written
  }

  /** Same content at p, present or absent. */
  predicate SameAt(a: Files, b: Files, p: string) {
    (p in a <==> p in b) && (p in a ==> a[p] == b[p])
  }

  /** Begin and write keep the invariant and touch nothing but part files. */
  lemma BeginKeeps(sha: Bytes -> Digest, st: Store, name: string, size: nat, digest: Digest, f: BeginFault)
    requires UploadInv(st)
    ensures var r := Begin(sha, st, name, size, digest, f);
            && UploadInv(r.st)
            && (forall p :: !IsPartPath(p) ==> SameAt(st.fs, r.st.fs, p))
            && (r.err == Ok && !r.present ==>
                  && r.st.up.Open? && r.st.up.name == name && r.st.up.size == size && r.st.up.expected == digest
                  && r.offset == |r.st.fs[PartPath(name)]|)
            && (r.err == Ok && r.present ==> Present(sha, r.st.fs, InstallPath(name), size, digest))
  {
    var r := Begin(sha, st, name, size, digest, f);
    forall p | !IsPartPath(p)
      ensures SameAt(st.fs, r.st.fs, p)
    {
      assert st.up.Open? ==> p != PartPath(st.up.name);
      assert ValidName(name) ==> p != PartPath(name);
    }
  }

  lemma WriteKeeps(st: Store, offset: nat, data: Bytes, accepted: bool)
    requires UploadInv(st)
    ensures var r := Write(st, offset, data, accepted);
            && UploadInv(r.st)
            && (forall p :: !IsPartPath(p) ==> SameAt(st.fs, r.st.fs, p))
            && (r.err == Ok ==>
                  && r.st.up.Open? && r.st.up.name == st.up.name
                  && r.st.fs[PartPath(st.up.name)] == st.fs[PartPath(st.up.name)] + data)
  {
    var r := Write(st, offset, data, accepted);
    forall p | !IsPartPath(p)
      ensures SameAt(st.fs, r.st.fs, p)
    {
      assert st.up.Open? ==> p != PartPath(st.up.name);
    }
  }

  /**
   * A commit that succeeds installs exactly `size` bytes with the declared hash. One that
   * fails leaves every installed file alone, except that a failed rename may have removed
   * the asset being replaced. No commit touches any other installed file.
   */
  lemma CommitKeeps(sha: Bytes -> Digest, st: Store, f: CommitFault)
    requires UploadInv(st)
    ensures var r := Commit(sha, st, f);
            && UploadInv(r.st)
            && (forall p :: !IsPartPath(p) && !(st.up.Open? && p == InstallPath(st.up.name)) ==>
                  SameAt(st.fs, r.st.fs, p))
            && (r.err == Ok ==>
                  && r.st.up.Idle? && InstallPath(st.up.name) in r.st.fs
                  && r.st.fs[InstallPath(st.up.name)] == st.fs[PartPath(st.up.name)]
                  && Present(sha, r.st.fs, InstallPath(st.up.name), st.up.size, st.up.expected)
                  && PartPath(st.up.name) !in r.st.fs)
            && (r.err == InvalidCrc <==> st.up.Open? && st.up.written == st.up.size && f.hashOk && f.closeOk
                                         && sha(st.fs[PartPath(st.up.name)]) != st.up.expected)
            && (r.err != Ok && st.up.Open? ==>
                  || SameAt(st.fs, r.st.fs, InstallPath(st.up.name))
                  || (f.install.RenameFails? && r.err == Fail && InstallPath(st.up.name) !in r.st.fs))
  {
    var r := Commit(sha, st, f);
    if st.up.Open? {
      PartNeverInstalled(st.up.name, st.up.name);
    }
    forall p | !IsPartPath(p) && !(st.up.Open? && p == InstallPath(st.up.name))
      ensures SameAt(st.fs, r.st.fs, p)
    {
      assert st.up.Open? ==> p != PartPath(st.up.name);
    }
  }

  /** Exactly when begin, write and commit succeed. */
  lemma BeginIff(sha: Bytes -> Digest, st: Store, name: string, size: nat, digest: Digest, f: BeginFault)
    requires UploadInv(st)
    ensures var r := Begin(sha, st, name, size, digest, f);
            var resumes := st.up.Open? && st.up.name == name && st.up.size == size && st.up.expected == digest;
            var here := f.hashReadable && Present(sha, st.fs, InstallPath(name), size, digest);
            && (r.err == Ok <==>
                  && ValidName(name) && size > 0 && name != JOB_NAME
                  && (resumes || here || (f.spaceOk && f.hashSetupOk && f.openOk)))
            && (r.err == Ok && resumes ==> r.st == st && !r.present && r.offset == st.up.written)
            && (r.err == Ok && !resumes ==> (r.present <==> here))
            && (r.err == Ok && !resumes && !here ==> r.offset == 0 && r.st.up == Open(name, digest, size, 0, []))
  {
    if st.up.Open? {
      if ValidName(name) {
        PartNeverInstalled(st.up.name, name);
      }
    }
  }

  lemma WriteIff(st: Store, offset: nat, data: Bytes, accepted: bool)
    requires UploadInv(st)
    ensures var r := Write(st, offset, data, accepted);
            && (r.err == Ok <==>
                  && st.up.Open? && offset == st.up.written && data != [] && accepted
                  && |data| <= st.up.size - st.up.written)
            && (r.err == Ok ==>
                  && r.st.up.Open? && r.st.up.written == st.up.written + |data|
                  && r.st.fs[PartPath(st.up.name)] == st.fs[PartPath(st.up.name)] + data)
  {
  }

  lemma CommitIff(sha: Bytes -> Digest, st: Store, f: CommitFault)
    requires UploadInv(st)
    ensures Commit(sha, st, f).err == Ok <==>
              && st.up.Open? && st.up.written == st.up.size && f.hashOk && f.closeOk && f.install.NoFault?
              && sha(st.fs[PartPath(st.up.name)]) == st.up.expected
  {
    if st.up.Open? {
      PartNeverInstalled(st.up.name, st.up.name);
    }
  }

  /** job.pb is not a name an upload can open, so no upload operation ever writes it. */
  lemma UploadsNeverWriteJob(st: Store)
    requires UploadInv(st) && st.up.Open?
    ensures InstallPath(st.up.name) != JOB_PATH && PartPath(st.up.name) != JOB_PATH
  {
    assert JOB_PATH == InstallPath(JOB_NAME);
    PathsInjective(st.up.name, JOB_NAME);
    FixedPathsNotPart(JOB_PATH);
  }

  // ---- whole upload histories --------------------------------------------

  datatype Op =
    | OpBegin(name: string, size: nat, digest: Digest, bf: BeginFault)
    | OpWrite(offset: nat, data: Bytes, accepted: bool)
    | OpCommit(cf: CommitFault)

  function Apply(sha: Bytes -> Digest, st: Store, op: Op): Out {
    match op
    case OpBegin(name, size, digest, f) => var r := Begin(sha, st, name, size, digest, f); Out(r.err, r.st)
    case OpWrite(offset, data, accepted) => Write(st, offset, data, accepted)
    case OpCommit(f) => Commit(sha, st, f)
  }

  function Concat(chunks: seq<Bytes>): Bytes {
    if chunks == [] then [] else Concat(chunks[..|chunks| - 1]) + chunks[|chunks| - 1]
  }

  /** A request history and the chunks the device acknowledged for the upload now open. */
  datatype Session = Session(st: Store, chunks: seq<Bytes>)

  function Serve1(sha: Bytes -> Digest, s: Session, op: Op): Session {
    var r := Apply(sha, s.st, op);
    var kept := if r.st.up.Idle? || (op.OpBegin? && r.st.up != s.st.up) then [] else s.chunks;
    Session(r.st, if op.OpWrite? && r.err == Ok then kept + [op.data] else kept)
  }

  function Serve(sha: Bytes -> Digest, st0: Store, ops: seq<Op>): Session {
    if ops == [] then Session(st0, []) else Serve1(sha, Serve(sha, st0, ops[..|ops| - 1]), ops[|ops| - 1])
  }

  /** The part file is the concatenation of the acknowledged chunks, and its length the resume offset. */
  ghost predicate SessionInv(s: Session) {
    && UploadInv(s.st)
    && (s.st.up.Open? ==> s.st.fs[PartPath(s.st.up.name)] == Concat(s.chunks) && s.st.up.written == |Concat(s.chunks)|)
  }

  lemma SessionBegin(sha: Bytes -> Digest, s: Session, op: Op)
    requires SessionInv(s) && op.OpBegin?
    ensures SessionInv(Serve1(sha, s, op)) && SameAt(s.st.fs, Serve1(sha, s, op).st.fs, JOB_PATH)
  {
    FixedPathsNotPart(JOB_PATH);
    BeginKeeps(sha, s.st, op.name, op.size, op.digest, op.bf);
  }

  lemma SessionWrite(sha: Bytes -> Digest, s: Session, op: Op)
    requires SessionInv(s) && op.OpWrite?
    ensures SessionInv(Serve1(sha, s, op)) && SameAt(s.st.fs, Serve1(sha, s, op).st.fs, JOB_PATH)
  {
    FixedPathsNotPart(JOB_PATH);
    WriteKeeps(s.st, op.offset, op.data, op.accepted);
    assert (s.chunks + [op.data])[..|s.chunks|] == s.chunks;
  }

  lemma SessionCommit(sha: Bytes -> Digest, s: Session, op: Op)
    requires SessionInv(s) && op.OpCommit?
    ensures SessionInv(Serve1(sha, s, op)) && SameAt(s.st.fs, Serve1(sha, s, op).st.fs, JOB_PATH)
  {
    FixedPathsNotPart(JOB_PATH);
    CommitKeeps(sha, s.st, op.cf);
    if s.st.up.Open? {
      UploadsNeverWriteJob(s.st);
    }
  }

  /**
   * Over every history of begin, write and commit with failures at any point: the part file
   * is the concatenation of the acknowledged chunks of the open upload, its length is the
   * resume offset, and job.pb is what it was at the start.
   */
  lemma {:induction false} UploadHistory(sha: Bytes -> Digest, st0: Store, ops: seq<Op>)
    requires st0.up.Idle?
    ensures SessionInv(Serve(sha, st0, ops)) && SameAt(st0.fs, Serve(sha, st0, ops).st.fs, JOB_PATH)
  {
    if ops != [] {
      UploadHistory(sha, st0, ops[..|ops| - 1]);
      var s, op := Serve(sha, st0, ops[..|ops| - 1]), ops[|ops| - 1];
      match op
      case OpBegin(_, _, _, _) => SessionBegin(sha, s, op);
      case OpWrite(_, _, _) => SessionWrite(sha, s, op);
      case OpCommit(_) => SessionCommit(sha, s, op);
    }
  }

  /** A successful commit at the end of any history installs exactly the acknowledged bytes. */
  lemma CommitInstallsAcknowledged(sha: Bytes -> Digest, st0: Store, ops: seq<Op>, f: CommitFault)
    requires st0.up.Idle?
    ensures var s := Serve(sha, st0, ops);
            var r := Commit(sha, s.st, f);
            r.err == Ok ==>
              && s.st.up.Open? && InstallPath(s.st.up.name) in r.st.fs
              && r.st.fs[InstallPath(s.st.up.name)] == Concat(s.chunks)
              && |Concat(s.chunks)| == s.st.up.size
              && sha(Concat(s.chunks)) == s.st.up.expected
  {
    UploadHistory(sha, st0, ops);
    CommitKeeps(sha, Serve(sha, st0, ops).st, f);
  }

  /** Requests that send these chunks one after the other. */
  function Sends(chunks: seq<Bytes>): seq<Op> {
    if chunks == [] then []
    else
      var init := chunks[..|chunks| - 1];
      Sends(init) + [OpWrite(|Concat(init)|, chunks[|chunks| - 1], true)]
  }

  lemma BeginOpens(sha: Bytes -> Digest, st0: Store, begin: Op)
    requires st0.up.Idle? && begin.OpBegin?
    requires Begin(sha, st0, begin.name, begin.size, begin.digest, begin.bf).err == Ok
    requires !Begin(sha, st0, begin.name, begin.size, begin.digest, begin.bf).present
    ensures Serve(sha, st0, [begin]).st.up == Open(begin.name, begin.digest, begin.size, 0, [])
  {
    BeginIff(sha, st0, begin.name, begin.size, begin.digest, begin.bf);
    assert ([begin])[..0] == [];
    assert Serve(sha, st0, []) == Session(st0, []);
  }

  lemma ChunkArrives(sha: Bytes -> Digest, s: Session, data: Bytes)
    requires SessionInv(s) && s.st.up.Open? && data != [] && s.st.up.written + |data| <= s.st.up.size
    ensures Serve1(sha, s, OpWrite(s.st.up.written, data, true)).st.up
            == s.st.up.(written := s.st.up.written + |data|, hashed := s.st.up.hashed + data)
  {
  }

  lemma ServeOneMore(sha: Bytes -> Digest, st0: Store, ops: seq<Op>, op: Op)
    ensures Serve(sha, st0, ops + [op]) == Serve1(sha, Serve(sha, st0, ops), op)
  {
    assert (ops + [op])[..|ops|] == ops;
  }

  lemma NextChunk(sha: Bytes -> Digest, st0: Store, ops: seq<Op>, data: Bytes)
    requires st0.up.Idle? && data != []
    requires var up := Serve(sha, st0, ops).st.up; up.Open? && up.written + |data| <= up.size
    ensures var up := Serve(sha, st0, ops).st.up;
            Serve(sha, st0, ops + [OpWrite(up.written, data, true)]).st.up
            == up.(written := up.written + |data|, hashed := up.hashed + data)
  {
    var s := Serve(sha, st0, ops);
    UploadHistory(sha, st0, ops);
    ServeOneMore(sha, st0, ops, OpWrite(s.st.up.written, data, true));
    ChunkArrives(sha, s, data);
  }

  lemma {:induction false} ChunksArrive(sha: Bytes -> Digest, st0: Store, begin: Op, chunks: seq<Bytes>)
    requires st0.up.Idle? && begin.OpBegin? && |Concat(chunks)| <= begin.size
    requires forall k :: 0 <= k < |chunks| ==> chunks[k] != []
    requires Serve(sha, st0, [begin]).st.up == Open(begin.name, begin.digest, begin.size, 0, [])
    ensures Serve(sha, st0, [begin] + Sends(chunks)).st.up
            == Open(begin.name, begin.digest, begin.size, |Concat(chunks)|, Concat(chunks))
  {
    if chunks == [] {
      assert [begin] + Sends(chunks) == [begin];
    } else {
      var init, last := chunks[..|chunks| - 1], chunks[|chunks| - 1];
      SendsLast(begin, chunks);
      ChunksArrive(sha, st0, begin, init);
      NextChunk(sha, st0, [begin] + Sends(init), last);
    }
  }

  lemma SendsLast(begin: Op, chunks: seq<Bytes>)
    requires chunks != []
    ensures var init, last := chunks[..|chunks| - 1], chunks[|chunks| - 1];
            && Concat(chunks) == Concat(init) + last
            && [begin] + Sends(chunks) == ([begin] + Sends(init)) + [OpWrite(|Concat(init)|, last, true)]
  {
  }

  /**
   * A file whose name the store accepts arrives whatever way it is cut into chunks: if nothing
   * fails, the commit succeeds exactly when the declared hash is right, and the file is there.
   */
  lemma UploadSucceeds(sha: Bytes -> Digest, st0: Store, name: string, digest: Digest, chunks: seq<Bytes>)
    requires st0.up.Idle? && ValidName(name) && name != JOB_NAME && chunks != []
    requires forall k :: 0 <= k < |chunks| ==> chunks[k] != []
    ensures var begin := OpBegin(name, |Concat(chunks)|, digest, BeginFault(false, true, true, true));
            var r := Commit(sha, Serve(sha, st0, [begin] + Sends(chunks)).st, CommitFault(true, true, NoFault));
            && (r.err == Ok <==> sha(Concat(chunks)) == digest)
            && (r.err == Ok ==> InstallPath(name) in r.st.fs && r.st.fs[InstallPath(name)] == Concat(chunks))
  {
    var begin := OpBegin(name, |Concat(chunks)|, digest, BeginFault(false, true, true, true));
    var ops := [begin] + Sends(chunks);
    var f := CommitFault(true, true, NoFault);
    assert |Concat(chunks)| > 0;
    BeginIff(sha, st0, name, |Concat(chunks)|, digest, begin.bf);
    BeginOpens(sha, st0, begin);
    ChunksArrive(sha, st0, begin, chunks);
    UploadHistory(sha, st0, ops);
    CommitIff(sha, Serve(sha, st0, ops).st, f);
    CommitKeeps(sha, Serve(sha, st0, ops).st, f);
  }

  // ---- the active job ----------------------------------------------------

  datatype Manager = Manager(job: Option<Decoded>, activeSha: Digest)
  datatype ActivateFault = ActivateFault(hashReadable: bool, decodable: bool, install: InstallFault)
  datatype ManagerOut = ManagerOut(err: Err, m: Manager, fs: Files)

  /** Every pinned file is there with the pinned hash. */
  predicate PinsMatch(env: Env, fs: Files, job: Job) {
    forall k :: 0 <= k < |Pins(job)| ==> Pins(job)[k].path in fs && env.sha(fs[Pins(job)[k].path]) == Pins(job)[k].sha
  }

  /** The bytes decode to an acceptable job. */
  predicate DecodesTo(env: Env, content: Bytes, d: Decoded) {
    content != [] && env.parse(content) == Some(d) && Accepted(d.job, d.blob)
  }

  predicate Decodable(env: Env, fs: Files, path: string) {
    path in fs && env.parse(fs[path]).Some? && DecodesTo(env, fs[path], env.parse(fs[path]).value)
    && PinsMatch(env, fs, env.parse(fs[path]).value.job)
  }

  /** Load the stored job at boot. */
  function LoadAtBoot(env: Env, fs: Files, readable: bool): Manager {
    if readable && Decodable(env, fs, JOB_PATH) then Manager(Some(env.parse(fs[JOB_PATH]).value), env.sha(fs[JOB_PATH]))
    else Manager(None, [])
  }

  function Activate(env: Env, m: Manager, fs: Files, sha: Digest, f: ActivateFault): ManagerOut {
    if m.job.Some? && m.activeSha == sha then ManagerOut(Ok, m, fs)
    else if !f.hashReadable || STAGED_JOB_PATH !in fs || env.sha(fs[STAGED_JOB_PATH]) != sha then
      ManagerOut(NotFound, m, fs)
    else if !f.decodable || !Decodable(env, fs, STAGED_JOB_PATH) then ManagerOut(Fail, m, fs)
    else
      var (ok, fs') := Install(fs, STAGED_JOB_PATH, JOB_PATH, f.install);
      if ok then ManagerOut(Ok, Manager(Some(env.parse(fs[STAGED_JOB_PATH]).value), sha), fs')
      else ManagerOut(Fail, m, fs')
  }

  /** The published job comes from bytes with the published hash. */
  ghost predicate Provenance(env: Env, m: Manager) {
    m.job.Some? ==> exists content :: env.sha(content) == m.activeSha && DecodesTo(env, content, m.job.value)
  }

  /** job.pb, when present, is the file of the published job. */
  predicate SavedOrAbsent(env: Env, m: Manager, fs: Files) {
    m.job.Some? && JOB_PATH in fs ==> env.sha(fs[JOB_PATH]) == m.activeSha
  }

  ghost predicate ActiveInv(env: Env, m: Manager, fs: Files) {
    Provenance(env, m) && SavedOrAbsent(env, m, fs)
  }

  lemma BootEstablishesActive(env: Env, fs: Files, readable: bool)
    ensures ActiveInv(env, LoadAtBoot(env, fs, readable), fs)
    ensures LoadAtBoot(env, fs, readable).job.Some? ==> JOB_PATH in fs
  {
    if readable && Decodable(env, fs, JOB_PATH) {
      assert DecodesTo(env, fs[JOB_PATH], env.parse(fs[JOB_PATH]).value);
    }
  }

  /**
   * Activation keeps the invariant. The job becomes absent on disk only through a failed
   * rename, and every file other than job.pb and the staged job is untouched.
   */
  lemma ActivateKeeps(env: Env, m: Manager, fs: Files, sha: Digest, f: ActivateFault)
    requires ActiveInv(env, m, fs)
    ensures var r := Activate(env, m, fs, sha, f);
            && ActiveInv(env, r.m, r.fs)
            && (r.err == Ok ==> r.m.job.Some? && r.m.activeSha == sha)
            && (r.err != Ok ==> r.m == m)
            && (JOB_PATH in fs && JOB_PATH !in r.fs ==> f.install.RenameFails? && r.err != Ok)
            && (forall p :: p != JOB_PATH && p != STAGED_JOB_PATH ==> SameAt(fs, r.fs, p))
  {
    if STAGED_JOB_PATH in fs && Decodable(env, fs, STAGED_JOB_PATH) {
      assert DecodesTo(env, fs[STAGED_JOB_PATH], env.parse(fs[STAGED_JOB_PATH]).value);
    }
  }

  /** Exactly when an activation succeeds, and what it publishes. */
  lemma ActivateIff(env: Env, m: Manager, fs: Files, sha: Digest, f: ActivateFault)
    ensures var r := Activate(env, m, fs, sha, f);
            var active := m.job.Some? && m.activeSha == sha;
            && (r.err == Ok <==>
                  || active
                  || (&& f.hashReadable && f.decodable && f.install.NoFault?
                      && Decodable(env, fs, STAGED_JOB_PATH) && env.sha(fs[STAGED_JOB_PATH]) == sha))
            && (r.err == Ok && active ==> r.m == m && r.fs == fs)
            && (r.err == Ok && !active ==>
                  && r.m.job == env.parse(fs[STAGED_JOB_PATH]) && r.m.activeSha == sha
                  && JOB_PATH in r.fs && r.fs[JOB_PATH] == fs[STAGED_JOB_PATH])
  {
  }

  /** Exactly when a stored job is loaded at boot. */
  lemma BootIff(env: Env, fs: Files, readable: bool)
    ensures LoadAtBoot(env, fs, readable).job.Some? <==> readable && Decodable(env, fs, JOB_PATH)
    ensures LoadAtBoot(env, fs, readable).job.Some? ==> LoadAtBoot(env, fs, readable).job == env.parse(fs[JOB_PATH])
  {
  }

  /**
   * After a successful activation the active job is saved on disk exactly when the call did
   * real work or the file was already there: the shortcut for an already active job does not
   * look at the disk.
   */
  lemma ActivateSavedIff(env: Env, m: Manager, fs: Files, sha: Digest, f: ActivateFault)
    requires ActiveInv(env, m, fs)
    requires Activate(env, m, fs, sha, f).err == Ok
    ensures var r := Activate(env, m, fs, sha, f);
            JOB_PATH in r.fs && env.sha(r.fs[JOB_PATH]) == sha <==>
                (m.job.None? || m.activeSha != sha || JOB_PATH in fs)
  {
  }

  /**
   * The shortcut is not a "true no-op on the saved job": activating B with a failing rename
   * fails and removes job.pb; activating A again then succeeds, with no job.pb on disk.
   */
  lemma ReactivateCanLeaveNoJobOnDisk(env: Env, m: Manager, fs: Files, shaB: Digest)
    requires ActiveInv(env, m, fs) && m.job.Some? && m.activeSha != shaB
    requires STAGED_JOB_PATH in fs && env.sha(fs[STAGED_JOB_PATH]) == shaB && Decodable(env, fs, STAGED_JOB_PATH)
    ensures var f := ActivateFault(true, true, RenameFails(true));
            var b := Activate(env, m, fs, shaB, f);
            var a := Activate(env, b.m, b.fs, m.activeSha, f);
            b.err == Fail && a.err == Ok && a.m == m && JOB_PATH !in a.fs
  {
  }

  /** Upload operations keep the active job and its file. */
  lemma UploadKeepsActive(env: Env, m: Manager, st: Store, op: Op)
    requires ActiveInv(env, m, st.fs) && UploadInv(st)
    ensures ActiveInv(env, m, Apply(env.sha, st, op).st.fs) && UploadInv(Apply(env.sha, st, op).st)
    ensures SameAt(st.fs, Apply(env.sha, st, op).st.fs, JOB_PATH)
  {
    FixedPathsNotPart(JOB_PATH);
    if st.up.Open? {
      UploadsNeverWriteJob(st);
    }
    match op
    case OpBegin(name, size, digest, f) => BeginKeeps(env.sha, st, name, size, digest, f);
    case OpWrite(offset, data, accepted) => WriteKeeps(st, offset, data, accepted);
    case OpCommit(f) => CommitKeeps(env.sha, st, f);
    assert SameAt(st.fs, Apply(env.sha, st, op).st.fs, JOB_PATH);
  }
}

// What each call of internal/blobstore/fs does when it runs alone, as a function of the
// files and of what the operating system lets succeed.
module BlobStoreSpec {
  import opened Basics
  import opened Digests
  import opened FileSystem

  datatype BlobError =
    | InvalidDigest | SizeInvalid | DigestMismatch | BlobCommitted | BlobUnknown
    | UploadUnknown | UploadInvalid | RangeNotSatisfiable | InvalidRange | Cancelled | IoError

  // The operating system's side of one call: which system calls succeed, how much of a
  // copy reaches the file before it fails, and the fresh id and inode it hands out.
  datatype Env = Env(
    id: string, ino: Ino,
    mkdirs: bool, opens: bool, stats: bool, copies: bool, copied: nat, syncs: bool, closes: bool,
    readable: bool, links: bool, unlinks: bool,
    live: bool, started: bool, removes: bool)

  // The id and inode a call may be given are not in use.
  predicate Fresh(fs: Files, env: Env, ns: string)
  {
    Staged(ns, env.id) !in fs.names && env.ino !in fs.inodes
  }

  // The bytes of `data` that reach the file.
  function Copied(data: Bytes, env: Env): (r: Bytes)
    ensures r <= data && (env.copies ==> r == data)
  {
    if env.copies || |data| <= env.copied then data else data[..env.copied]
  }

  function StageError(size: int, n: int): BlobError { if n != size then SizeInvalid else IoError }

  // What is wrong with the staged bytes, if anything.
  function Staging(H: Hashes, env: Env, k: Key, size: int, data: Bytes): Option<BlobError>
  {
    if !env.mkdirs || !env.opens then Some(StageError(size, 0))
    else if !env.copies then Some(StageError(size, |Copied(data, env)|))
    else if !env.syncs then Some(StageError(size, 0))
    else if |data| != size || !env.closes then Some(StageError(size, |data|))
    else if !Matches(H, k.digest, data) then Some(DigestMismatch)
    else None
  }

  // The committed name is bound to the staged inode unless something already holds it.
  function LinkError(fs: Files, env: Env, k: Key): Option<BlobError>
  {
    if !env.links then Some(IoError) else if BlobName(k) in fs.names then Some(BlobCommitted) else None
  }

  function PutBlob(H: Hashes, fs: Files, env: Env, k: Key, size: int, data: Bytes): (Files, Result<int, BlobError>)
  {
    if !ValidDigest(k.digest) then (fs, Err(InvalidDigest))
    else if size < 0 then (fs, Err(SizeInvalid))
    else if !env.mkdirs || !env.opens then (fs, Err(StageError(size, 0)))
    else
      var left := if env.unlinks then map[] else map[Staged(k.ns, env.id) := env.ino];
      var staged := Files(fs.names + left, fs.inodes[env.ino := Copied(data, env)]);
      match Staging(H, env, k, size, data)
      case Some(e) => (staged, Err(e))
      case None =>
        match LinkError(fs, env, k)
        case Some(e) => (staged, Err(e))
        case None => (staged.(names := staged.names[BlobName(k) := env.ino]), Ok(size))
  }

  function StatBlob(fs: Files, env: Env, k: Key): Result<int, BlobError>
    requires WellFormed(fs)
  {
    if !ValidDigest(k.digest) then Err(InvalidDigest)
    else if BlobName(k) !in fs.names then Err(BlobUnknown)
    else if !env.stats then Err(IoError)
    else Ok(|Content(fs, BlobName(k))|)
  }

  function GetBlob(fs: Files, env: Env, k: Key): Result<Bytes, BlobError>
    requires WellFormed(fs)
  {
    if !ValidDigest(k.digest) then Err(InvalidDigest)
    else if BlobName(k) !in fs.names then Err(BlobUnknown)
    else if !env.opens || !env.stats then Err(IoError)
    else Ok(Content(fs, BlobName(k)))
  }

  function InitiateBlobUpload(fs: Files, env: Env, ns: string): (Files, Result<string, BlobError>)
  {
    if !env.mkdirs || !env.opens then (fs, Err(IoError))
    else (Create(fs, Staged(ns, env.id), env.ino), if env.closes then Ok(env.id) else Err(IoError))
  }

  function AppendBlobChunk(fs: Files, env: Env, ns: string, id: string, offset: int, data: Bytes): (Files, Result<int, BlobError>)
    requires WellFormed(fs)
  {
    var n := Staged(ns, id);
    if offset < 0 then (fs, Err(UploadInvalid))
    else if n !in fs.names then (fs, Err(UploadUnknown))
    else if !env.opens || !env.stats then (fs, Err(IoError))
    else if |Content(fs, n)| != offset then (fs, Err(RangeNotSatisfiable))
    else (Append(fs, fs.names[n], Copied(data, env)), if env.copies && env.syncs then Ok(offset + |data|) else Err(IoError))
  }

  function GetBlobUploadOffset(fs: Files, env: Env, ns: string, id: string): Result<int, BlobError>
    requires WellFormed(fs)
  {
    if Staged(ns, id) !in fs.names then Err(UploadUnknown)
    else if !env.stats then Err(IoError)
    else Ok(|Content(fs, Staged(ns, id))|)
  }

  function FinalizeBlobUpload(H: Hashes, fs: Files, env: Env, ns: string, id: string, d: Digest, size: int): (Files, Result<(), BlobError>)
    requires WellFormed(fs)
  {
    var n, k := Staged(ns, id), Key(ns, d);
    if !ValidDigest(d) then (fs, Err(InvalidDigest))
    else if n !in fs.names then (fs, Err(UploadUnknown))
    else if !env.stats then (fs, Err(IoError))
    else if |Content(fs, n)| != size then (fs, Err(SizeInvalid))
    else if !env.opens || !env.readable then (fs, Err(IoError))
    else if !Matches(H, d, Content(fs, n)) then (fs, Err(DigestMismatch))
    else if !env.mkdirs || !env.links then (fs, Err(IoError))
    else
      var released := if env.unlinks then Unlink(fs, n) else fs;
      if BlobName(k) in fs.names then (released, Err(BlobCommitted))
      else (released.(names := released.names[BlobName(k) := fs.names[n]]), Ok(()))
  }

  function CancelBlobUpload(fs: Files, env: Env, ns: string, id: string): (Files, Result<(), BlobError>)
  {
    if env.unlinks || Staged(ns, id) !in fs.names then (Unlink(fs, Staged(ns, id)), Ok(())) else (fs, Err(IoError))
  }

  // Removal goes through the worker pool: `started` says it runs, `removes` that the
  // worker's unlink of an existing file succeeds.
  function DeleteBlob(fs: Files, env: Env, k: Key): (Files, Result<(), BlobError>)
  {
    if !env.live then (fs, Err(Cancelled))
    else if !ValidDigest(k.digest) then (fs, Err(InvalidDigest))
    else if !env.started then (fs, Err(IoError))
    else if BlobName(k) !in fs.names then (fs, Err(BlobUnknown))
    else if !env.removes then (fs, Err(IoError))
    else (Unlink(fs, BlobName(k)), Ok(()))
  }

  // The files once PutBlob has staged its bytes, and dropped the staging name or not.
  function StagedBytes(fs: Files, env: Env, ns: string, data: Bytes): Files
  {
    var written := fs.(inodes := fs.inodes[env.ino := Copied(data, env)]);
    if env.unlinks then written else written.(names := written.names[Staged(ns, env.id) := env.ino])
  }

  // PutBlob leaves the files alone, stages the bytes, or also binds the digest to them.
  lemma PutCases(H: Hashes, fs: Files, env: Env, k: Key, size: int, data: Bytes)
    ensures var (fs', r) := PutBlob(H, fs, env, k, size, data);
      var staged := StagedBytes(fs, env, k.ns, data);
      if !ValidDigest(k.digest) then fs' == fs && r == Err(InvalidDigest)
      else if size < 0 then fs' == fs && r == Err(SizeInvalid)
      else if !env.mkdirs || !env.opens then fs' == fs && r == Err(StageError(size, 0))
      else if Staging(H, env, k, size, data).Some? then fs' == staged && r == Err(Staging(H, env, k, size, data).value)
      else if LinkError(fs, env, k).Some? then fs' == staged && r == Err(LinkError(fs, env, k).value)
      else fs' == staged.(names := staged.names[BlobName(k) := env.ino]) && r == Ok(size)
  {
    assert fs.names + map[] == fs.names;
    assert fs.names + map[Staged(k.ns, env.id) := env.ino] == fs.names[Staged(k.ns, env.id) := env.ino];
  }
}

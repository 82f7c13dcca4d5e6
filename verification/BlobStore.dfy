// internal/blobstore/fs/store.go, stream.go, reader.go and deleter.go: the calls as
// sequences of system calls with their early returns and deferred clean-ups, proved
// against BlobStoreSpec.
module BlobStore {
  import opened Basics
  import opened Digests
  import opened FileSystem
  import Spec = BlobStoreSpec
  import opened BlobStoreSpec

  class FilesystemBlobStore {
    var fs: Files

    constructor ()
      ensures fs == Files(map[], map[])
    {
      fs := Files(map[], map[]);
    }

    // os.Remove, with a missing file counted as removed.
    method RemoveFileIfExists(n: Name, env: Env) returns (ok: bool)
      modifies this
      ensures ok <==> env.unlinks || n !in old(fs).names
      ensures fs == if ok then Unlink(old(fs), n) else old(fs)
    {
      if n in fs.names && !env.unlinks {
        return false;
      }
      fs := Unlink(fs, n);
      return true;
    }

    // io.Copy through a tee, in chunks of any size: the hasher sees what the file gets.
    method CopyTee(h: Hasher, ino: Ino, data: Bytes, env: Env) returns (n: nat, st: int, ok: bool)
      requires ino in fs.inodes
      modifies this
      ensures fs == Append(old(fs), ino, Copied(data, env))
      ensures n == |Copied(data, env)| && ok == env.copies
      ensures ok ==> st == Absorb(h, h.init, data)
    {
      var limit := |Copied(data, env)|;
      n, st := 0, h.init;
      assert old(fs).inodes[ino] + data[..0] == old(fs).inodes[ino];
      while n < limit
        invariant n <= limit <= |data| && data[..limit] == Copied(data, env)
        invariant fs.names == old(fs).names
        invariant fs.inodes == old(fs).inodes[ino := old(fs).inodes[ino] + data[..n]]
        invariant st == Absorb(h, h.init, data[..n])
      {
        var count :| 0 < count <= limit - n;
        var chunk := data[n..n + count];
        AbsorbConcat(h, h.init, data[..n], chunk);
        assert data[..n] + chunk == data[..n + count];
        assert old(fs).inodes[ino] + data[..n] + chunk == old(fs).inodes[ino] + data[..n + count];
        st := Absorb(h, st, chunk);
        fs := Append(fs, ino, chunk);
        n := n + count;
      }
      ok := env.copies;
    }

    // Returns the bytes written; any error removes the staged file again.
    method WriteToStaging(tmp: Name, h: Hasher, data: Bytes, env: Env) returns (n: nat, st: int, failed: bool)
      requires tmp !in fs.names && env.ino !in fs.inodes
      modifies this
      ensures failed <==> !(env.mkdirs && env.opens && env.copies && env.syncs && env.closes)
      ensures n == if env.mkdirs && env.opens && (env.copies ==> env.syncs) then |Copied(data, env)| else 0
      ensures !failed ==> st == Absorb(h, h.init, data)
      ensures fs == if !env.mkdirs || !env.opens then old(fs)
                    else Files(if failed && env.unlinks then old(fs).names else old(fs).names[tmp := env.ino],
                               old(fs).inodes[env.ino := Copied(data, env)])
    {
      if !env.mkdirs || !env.opens {
        return 0, h.init, true;
      }
      fs := Create(fs, tmp, env.ino);
      var copied;
      n, st, copied := CopyTee(h, env.ino, data, env);
      assert [] + Copied(data, env) == Copied(data, env);
      failed := !copied;
      if copied && !env.syncs {
        n, failed := 0, true;
      }
      // deferred: close, then remove on any error
      if !env.closes {
        failed := true;
      }
      if failed {
        var _ := RemoveFileIfExists(tmp, env);
        assert old(fs).names[tmp := env.ino] - {tmp} == old(fs).names;
      }
    }

    method WriteBlob(H: Hashes, tmp: Name, k: Key, size: int, data: Bytes, env: Env) returns (r: Result<int, BlobError>)
      requires tmp !in fs.names && env.ino !in fs.inodes
      modifies this
      ensures r == (match Staging(H, env, k, size, data) case Some(e) => Err(e) case None => Ok(size))
      ensures fs == if !env.mkdirs || !env.opens then old(fs)
                    else Files(if r.Err? && env.unlinks then old(fs).names else old(fs).names[tmp := env.ino],
                               old(fs).inodes[env.ino := Copied(data, env)])
    {
      var h := H(Algorithm(k.digest));
      var n, st, failed := WriteToStaging(tmp, h, data, env);
      assert old(fs).names[tmp := env.ino] - {tmp} == old(fs).names;
      assert tmp !in old(fs).names ==> old(fs).names - {tmp} == old(fs).names;
      if n != size {
        var _ := RemoveFileIfExists(tmp, env);
        return Err(SizeInvalid);
      }
      if failed {
        return Err(IoError);
      }
      if Algorithm(k.digest) + ":" + h.finish(st) != k.digest {
        var _ := RemoveFileIfExists(tmp, env);
        return Err(DigestMismatch);
      }
      return Ok(n);
    }

    method LinkStagedFile(tmp: Name, k: Key, env: Env) returns (r: Result<(), BlobError>)
      requires tmp in fs.names
      modifies this
      ensures match LinkError(old(fs), env, k)
              case Some(e) => r == Err(e) && fs == old(fs)
              case None => r == Ok(()) && fs == Link(old(fs), tmp, BlobName(k))
    {
      if !env.links {
        return Err(IoError);
      }
      if BlobName(k) in fs.names {
        return Err(BlobCommitted);
      }
      fs := Link(fs, tmp, BlobName(k));
      return Ok(());
    }

    method PutBlob(H: Hashes, k: Key, size: int, data: Bytes, env: Env) returns (r: Result<int, BlobError>)
      requires Fresh(fs, env, k.ns)
      modifies this
      ensures (fs, r) == Spec.PutBlob(H, old(fs), env, k, size, data)
    {
      if !ValidDigest(k.digest) {
        return Err(InvalidDigest);
      }
      if size < 0 {
        return Err(SizeInvalid);
      }
      var tmp := Staged(k.ns, env.id);
      r := WriteBlob(H, tmp, k, size, data, env);
      if r.Ok? {
        var linked := LinkStagedFile(tmp, k, env);
        if linked.Err? {
          r := Err(linked.error);
        }
      }
      // deferred
      ghost var names := old(fs).names;
      assert names[tmp := env.ino] - {tmp} == names && names - {tmp} == names;
      assert names[tmp := env.ino][BlobName(k) := env.ino] - {tmp} == names[BlobName(k) := env.ino];
      Spec.PutCases(H, old(fs), env, k, size, data);
      var _ := RemoveFileIfExists(tmp, env);
    }

    method StatBlob(k: Key, env: Env) returns (r: Result<int, BlobError>)
      requires WellFormed(fs)
      ensures r == Spec.StatBlob(fs, env, k)
    {
      if !ValidDigest(k.digest) {
        return Err(InvalidDigest);
      }
      if BlobName(k) !in fs.names {
        return Err(BlobUnknown);
      }
      if !env.stats {
        return Err(IoError);
      }
      return Ok(|Content(fs, BlobName(k))|);
    }

    method InitiateBlobUpload(ns: string, env: Env) returns (r: Result<string, BlobError>)
      requires Fresh(fs, env, ns)
      modifies this
      ensures (fs, r) == Spec.InitiateBlobUpload(old(fs), env, ns)
    {
      if !env.mkdirs {
        return Err(IoError);
      }
      if !env.opens {
        return Err(IoError);
      }
      fs := Create(fs, Staged(ns, env.id), env.ino);
      if !env.closes {
        return Err(IoError);
      }
      return Ok(env.id);
    }

    method AppendBlobChunk(ns: string, id: string, offset: int, data: Bytes, env: Env) returns (r: Result<int, BlobError>)
      requires WellFormed(fs)
      modifies this
      ensures (fs, r) == Spec.AppendBlobChunk(old(fs), env, ns, id, offset, data)
    {
      if offset < 0 {
        return Err(UploadInvalid);
      }
      var n := Staged(ns, id);
      if n !in fs.names {
        return Err(UploadUnknown);
      }
      if !env.opens {
        return Err(IoError);
      }
      var ino := fs.names[n];
      if !env.stats {
        return Err(IoError);
      }
      if |fs.inodes[ino]| != offset {
        return Err(RangeNotSatisfiable);
      }
      var written, _, copied := CopyTee(Hasher(0, (st, b) => st, st => ""), ino, data, env);
      if !copied {
        return Err(IoError);
      }
      if !env.syncs {
        return Err(IoError);
      }
      return Ok(offset + written);
    }

    // Hashes the staged file by reading it again, in chunks of any size.
    method HashFile(h: Hasher, ino: Ino) returns (st: int)
      requires ino in fs.inodes
      ensures st == Absorb(h, h.init, fs.inodes[ino])
    {
      var data := fs.inodes[ino];
      var pos := 0;
      st := h.init;
      while pos < |data|
        invariant 0 <= pos <= |data|
        invariant st == Absorb(h, h.init, data[..pos])
      {
        var count :| 0 < count <= |data| - pos;
        AbsorbConcat(h, h.init, data[..pos], data[pos..pos + count]);
        assert data[..pos] + data[pos..pos + count] == data[..pos + count];
        st := Absorb(h, st, data[pos..pos + count]);
        pos := pos + count;
      }
      assert data[..pos] == data;
    }

    method VerifyStagingBlob(H: Hashes, n: Name, d: Digest, size: int, env: Env) returns (r: Result<(), BlobError>)
      requires WellFormed(fs)
      ensures r.Ok? <==>
        n in fs.names && env.stats && |Content(fs, n)| == size && env.opens && env.readable && Matches(H, d, Content(fs, n))
      ensures r.Err? ==>
        r.error == (if n !in fs.names then UploadUnknown else if !env.stats then IoError
                    else if |Content(fs, n)| != size then SizeInvalid
                    else if !env.opens || !env.readable then IoError else DigestMismatch)
    {
      if n !in fs.names {
        return Err(UploadUnknown);
      }
      if !env.stats {
        return Err(IoError);
      }
      if |fs.inodes[fs.names[n]]| != size {
        return Err(SizeInvalid);
      }
      if !env.opens || !env.readable {
        return Err(IoError);
      }
      var h := H(Algorithm(d));
      var st := HashFile(h, fs.names[n]);
      if Algorithm(d) + ":" + h.finish(st) != d {
        return Err(DigestMismatch);
      }
      return Ok(());
    }

    method FinalizeBlobUpload(H: Hashes, ns: string, id: string, d: Digest, size: int, env: Env) returns (r: Result<(), BlobError>)
      requires WellFormed(fs)
      modifies this
      ensures (fs, r) == Spec.FinalizeBlobUpload(H, old(fs), env, ns, id, d, size)
    {
      if !ValidDigest(d) {
        return Err(InvalidDigest);
      }
      var n := Staged(ns, id);
      r := VerifyStagingBlob(H, n, d, size, env);
      if r.Err? {
        return;
      }
      if !env.mkdirs {
        return Err(IoError);
      }
      r := LinkStagedFile(n, Key(ns, d), env);
      if r.Err? && r.error != BlobCommitted {
        return;
      }
      ghost var names := old(fs).names;
      assert names[BlobName(Key(ns, d)) := names[n]] - {n} == (names - {n})[BlobName(Key(ns, d)) := names[n]];
      var _ := RemoveFileIfExists(n, env);
    }

    method CancelBlobUpload(ns: string, id: string, env: Env) returns (r: Result<(), BlobError>)
      modifies this
      ensures (fs, r) == Spec.CancelBlobUpload(old(fs), env, ns, id)
    {
      var ok := RemoveFileIfExists(Staged(ns, id), env);
      r := if ok then Ok(()) else Err(IoError);
    }

    method DeleteBlob(k: Key, env: Env) returns (r: Result<(), BlobError>)
      modifies this
      ensures (fs, r) == Spec.DeleteBlob(old(fs), env, k)
    {
      if !env.live {
        return Err(Cancelled);
      }
      if !ValidDigest(k.digest) {
        return Err(InvalidDigest);
      }
      if !env.started {
        return Err(IoError);
      }
      var removed := 0;
      if BlobName(k) in fs.names {
        if !env.removes {
          return Err(IoError);
        }
        fs := Unlink(fs, BlobName(k));
        removed := 1;
      }
      if removed == 0 {
        return Err(BlobUnknown);
      }
      return Ok(());
    }
  }
}
